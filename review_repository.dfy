/** The reviews table: the per-pair existence check, the owner-scoped
    lookup, the two joined listings (newest first), the insert that reports a
    duplicate pair, the update built column by column, and the deletes. */
module ReviewRepository {
  import opened Wrappers
  import opened Tables
  import opened AppErrors
  import Seqs
  import Sorting
  import ResponseDto

  /** userHasReview */
  function UserHasReview(t: Tables, userId: int, restaurantId: int): (b: bool)
    ensures b <==> exists i :: 0 <= i < |t.reviews| && t.reviews[i].userId == userId && t.reviews[i].restaurantId == restaurantId
  {
    exists i :: 0 <= i < |t.reviews| && t.reviews[i].userId == userId && t.reviews[i].restaurantId == restaurantId
  }

  /** The first review row matching `p`. */
  function FindReview(rows: seq<ReviewRow>, p: ReviewRow -> bool): (r: Option<ReviewRow>)
    ensures r.None? <==> forall i :: 0 <= i < |rows| ==> !p(rows[i])
    ensures r.Some? ==> r.value in rows && p(r.value)
  {
    if rows == [] then None
    else if p(rows[0]) then Some(rows[0])
    else FindReview(rows[1..], p)
  }

  /** findUserReview: the review only when both its id and its author match. */
  function FindUserReview(t: Tables, reviewId: int, userId: int): (r: Option<ReviewRow>)
    ensures r.None? <==> forall i :: 0 <= i < |t.reviews| ==> !(t.reviews[i].id == reviewId && t.reviews[i].userId == userId)
    ensures r.Some? ==> r.value in t.reviews && r.value.id == reviewId && r.value.userId == userId
  {
    FindReview(t.reviews, (v: ReviewRow) => v.id == reviewId && v.userId == userId)
  }

  /** findReviewById */
  function FindReviewById(t: Tables, reviewId: int): (r: Option<ReviewRow>)
    ensures r.None? <==> forall i :: 0 <= i < |t.reviews| ==> t.reviews[i].id != reviewId
    ensures r.Some? ==> r.value in t.reviews && r.value.id == reviewId
  {
    FindReview(t.reviews, (v: ReviewRow) => v.id == reviewId)
  }

  // ---------------------------------------------------------------------
  // Listings
  // ---------------------------------------------------------------------

  /** ORDER BY created_at DESC */
  predicate UserReviewNewerFirst(a: ResponseDto.UserReview, b: ResponseDto.UserReview) {
    a.review.createdAt >= b.review.createdAt
  }

  predicate RestaurantReviewNewerFirst(a: ResponseDto.RestaurantReview, b: ResponseDto.RestaurantReview) {
    a.review.createdAt >= b.review.createdAt
  }

  /** The JOIN with restaurants: each review whose restaurant exists, with
      that restaurant's name, in the reviews' order. */
  function JoinRestaurants(reviews: seq<ReviewRow>, restaurants: seq<RestaurantRow>): (r: seq<ResponseDto.UserReview>)
    ensures forall e :: e in r ==>
      && e.review in reviews
      && RestaurantById(restaurants, e.review.restaurantId).Some?
      && RestaurantById(restaurants, e.review.restaurantId).value.name == e.restaurantName
    ensures forall v :: v in reviews && RestaurantById(restaurants, v.restaurantId).Some? ==>
      exists e :: e in r && e.review == v
    ensures Seqs.Pairwise(reviews, ReviewsApart) ==> forall i, j :: 0 <= i < j < |r| ==> r[i].review.id < r[j].review.id
  {
    if reviews == [] then []
    else
      var rest := JoinRestaurants(reviews[1..], restaurants);
      LaterReviewsApart(reviews);
      match RestaurantById(restaurants, reviews[0].restaurantId)
      case None => rest
      case Some(row) => [ResponseDto.UserReview(reviews[0], row.name)] + rest
  }

  /** The JOIN with users: each review whose author exists, with the
      author's e-mail, in the reviews' order. */
  function JoinUsers(reviews: seq<ReviewRow>, users: seq<UserRow>): (r: seq<ResponseDto.RestaurantReview>)
    ensures forall e :: e in r ==>
      && e.review in reviews
      && UserById(users, e.review.userId).Some?
      && UserById(users, e.review.userId).value.email == e.userEmail
    ensures forall v :: v in reviews && UserById(users, v.userId).Some? ==>
      exists e :: e in r && e.review == v
    ensures Seqs.Pairwise(reviews, ReviewsApart) ==> forall i, j :: 0 <= i < j < |r| ==> r[i].review.id < r[j].review.id
  {
    if reviews == [] then []
    else
      var rest := JoinUsers(reviews[1..], users);
      LaterReviewsApart(reviews);
      match UserById(users, reviews[0].userId)
      case None => rest
      case Some(u) => [ResponseDto.RestaurantReview(reviews[0], u.email)] + rest
  }

  /** In id order, the head review's id is below every later review's, and
      the tail is still in id order. */
  lemma LaterReviewsApart(reviews: seq<ReviewRow>)
    requires reviews != []
    ensures Seqs.Pairwise(reviews, ReviewsApart) ==>
      && Seqs.Pairwise(reviews[1..], ReviewsApart)
      && forall v :: v in reviews[1..] ==> reviews[0].id < v.id
  {
    if Seqs.Pairwise(reviews, ReviewsApart) {
      forall v | v in reviews[1..]
        ensures reviews[0].id < v.id
      {
        var k :| 0 <= k < |reviews[1..]| && reviews[1..][k] == v;
        assert ReviewsApart(reviews[0], reviews[k + 1]);
      }
    }
  }

  lemma NewerFirstIsTotalPreorder()
    ensures Sorting.TotalPreorder(UserReviewNewerFirst)
    ensures Sorting.TotalPreorder(RestaurantReviewNewerFirst)
  {
  }

  /** The rows listReviewsByUser selects, before ORDER BY. */
  function UserReviewRows(t: Tables, userId: int): seq<ResponseDto.UserReview> {
    JoinRestaurants(Seqs.Filter(t.reviews, (v: ReviewRow) => v.userId == userId), t.restaurants)
  }

  /** listReviewsByUser: the user's reviews, each once, with the name of its
      restaurant, newest first. */
  function ListReviewsByUser(t: Tables, userId: int): (r: seq<ResponseDto.UserReview>)
    ensures Sorting.SortedBy(r, UserReviewNewerFirst)
    ensures multiset(r) == multiset(UserReviewRows(t, userId))
    ensures forall e :: e in r ==>
      && e.review in t.reviews && e.review.userId == userId
      && RestaurantById(t.restaurants, e.review.restaurantId).Some?
      && RestaurantById(t.restaurants, e.review.restaurantId).value.name == e.restaurantName
    ensures forall v :: v in t.reviews && v.userId == userId && RestaurantById(t.restaurants, v.restaurantId).Some? ==>
      exists e :: e in r && e.review == v
    ensures Valid(t) ==> forall i, j :: 0 <= i < j < |r| ==> r[i].review.id != r[j].review.id
  {
    NewerFirstIsTotalPreorder();
    var mine := Seqs.Filter(t.reviews, (v: ReviewRow) => v.userId == userId);
    var joined := JoinRestaurants(mine, t.restaurants);
    Sorting.SortKeepsMembers(joined, UserReviewNewerFirst);
    var key := (e: ResponseDto.UserReview) => e.review.id;
    assert Valid(t) ==> Sorting.DistinctBy(Sorting.Sort(joined, UserReviewNewerFirst), key) by {
      if Valid(t) {
        Seqs.FilterPairwise(t.reviews, (v: ReviewRow) => v.userId == userId, ReviewsApart);
        Sorting.SortDistinct(joined, UserReviewNewerFirst, key);
      }
    }
    Sorting.Sort(joined, UserReviewNewerFirst)
  }

  /** The rows listReviewsForRestaurant selects, before ORDER BY. */
  function RestaurantReviewRows(t: Tables, restaurantId: int): seq<ResponseDto.RestaurantReview> {
    JoinUsers(Seqs.Filter(t.reviews, (v: ReviewRow) => v.restaurantId == restaurantId), t.users)
  }

  /** listReviewsForRestaurant: the restaurant's reviews, each once, with
      its author's e-mail, newest first. */
  function ListReviewsForRestaurant(t: Tables, restaurantId: int): (r: seq<ResponseDto.RestaurantReview>)
    ensures Sorting.SortedBy(r, RestaurantReviewNewerFirst)
    ensures multiset(r) == multiset(RestaurantReviewRows(t, restaurantId))
    ensures forall e :: e in r ==>
      && e.review in t.reviews && e.review.restaurantId == restaurantId
      && UserById(t.users, e.review.userId).Some?
      && UserById(t.users, e.review.userId).value.email == e.userEmail
    ensures forall v :: v in t.reviews && v.restaurantId == restaurantId && UserById(t.users, v.userId).Some? ==>
      exists e :: e in r && e.review == v
    ensures Valid(t) ==> forall i, j :: 0 <= i < j < |r| ==> r[i].review.id != r[j].review.id
  {
    NewerFirstIsTotalPreorder();
    var theirs := Seqs.Filter(t.reviews, (v: ReviewRow) => v.restaurantId == restaurantId);
    var joined := JoinUsers(theirs, t.users);
    Sorting.SortKeepsMembers(joined, RestaurantReviewNewerFirst);
    var key := (e: ResponseDto.RestaurantReview) => e.review.id;
    assert Valid(t) ==> Sorting.DistinctBy(Sorting.Sort(joined, RestaurantReviewNewerFirst), key) by {
      if Valid(t) {
        Seqs.FilterPairwise(t.reviews, (v: ReviewRow) => v.restaurantId == restaurantId, ReviewsApart);
        Sorting.SortDistinct(joined, RestaurantReviewNewerFirst, key);
      }
    }
    Sorting.Sort(joined, RestaurantReviewNewerFirst)
  }

  // ---------------------------------------------------------------------
  // Changes
  // ---------------------------------------------------------------------

  /** What insertReview returns: "DUPLICATE", or the new row id. */
  datatype InsertOutcome = Duplicate | Inserted(id: int)

  /** insertReview: any storage error other than the uniqueness violation
      is rethrown; a pair that already has a review violates the UNIQUE
      constraint, which is reported as "DUPLICATE" with nothing inserted;
      otherwise one row is appended under the next id, which is returned.
      `comments ?? null` stores an absent comment as NULL. */
  method InsertReview(db: Database, userId: int, restaurantId: int, rating: int, comments: Maybe<string>, now: int, storageFault: bool)
    returns (r: Result<InsertOutcome, Failure>)
    modifies db
    requires Valid(db.State())
    ensures Valid(db.State())
    ensures storageFault ==> r == Err(OtherFailure) && db.State() == old(db.State())
    ensures !storageFault && UserHasReview(old(db.State()), userId, restaurantId) ==>
      r == Ok(Duplicate) && db.State() == old(db.State())
    ensures !storageFault && !UserHasReview(old(db.State()), userId, restaurantId) ==>
      && r == Ok(Inserted(old(db.nextReviewId)))
      && db.State() == old(db.State()).(
           reviews := old(db.reviews) + [ReviewRow(old(db.nextReviewId), userId, restaurantId, rating, comments.OrNull(), now)],
           nextReviewId := old(db.nextReviewId) + 1)
  {
    if storageFault {
      return Err(OtherFailure);
    }
    if UserHasReview(db.State(), userId, restaurantId) {
      return Ok(Duplicate);
    }
    var id := db.nextReviewId;
    var row := ReviewRow(id, userId, restaurantId, rating, comments.OrNull(), now);
    AppendReviewValid(db.State(), row);
    db.reviews := db.reviews + [row];
    db.nextReviewId := id + 1;
    r := Ok(Inserted(id));
  }

  /** One `column = ?` of the UPDATE statement. */
  datatype ReviewSet = SetRating(rating: int) | SetComments(comments: Nullable<string>)

  /** The row after the SET list, applied left to right. */
  function ApplyReviewSets(v: ReviewRow, sets: seq<ReviewSet>): (r: ReviewRow)
    ensures r.id == v.id && r.userId == v.userId && r.restaurantId == v.restaurantId
    decreases |sets|
  {
    if sets == [] then v
    else
      var next := match sets[0]
        case SetRating(x) => v.(rating := x)
        case SetComments(c) => v.(comments := c);
      ApplyReviewSets(next, sets[1..])
  }

  /** The SET list updateReview builds: the rating always, the comments only
      when the body carries the key. */
  function ReviewSets(rating: int, comments: Maybe<string>): seq<ReviewSet> {
    [SetRating(rating)] + (if comments.Undefined? then [] else [SetComments(comments.OrNull())])
  }

  /** What an update means for the row it hits: the new rating, and the new
      comments if any were given, an explicit null clearing them. */
  lemma ReviewSetsMeaning(v: ReviewRow, rating: int, comments: Maybe<string>)
    ensures ApplyReviewSets(v, ReviewSets(rating, comments))
      == v.(rating := rating, comments := if comments.Undefined? then v.comments else comments.OrNull())
  {
    var sets := ReviewSets(rating, comments);
    assert sets[0] == SetRating(rating);
    var rated := v.(rating := rating);
    assert ApplyReviewSets(v, sets) == ApplyReviewSets(rated, sets[1..]);
    if !comments.Undefined? {
      assert sets[1..][0] == SetComments(comments.OrNull());
      assert sets[1..][1..] == [];
      assert ApplyReviewSets(rated, sets[1..]) == ApplyReviewSets(rated.(comments := comments.OrNull()), []);
    } else {
      assert sets[1..] == [];
    }
  }

  /** The row rewrite of `UPDATE reviews SET ... WHERE id = ?`. */
  function UpdateWhere(reviewId: int, sets: seq<ReviewSet>): ReviewRow -> ReviewRow {
    (v: ReviewRow) => if v.id == reviewId then ApplyReviewSets(v, sets) else v
  }

  /** updateReview: only the row with that id changes, and it changes as the
      SET list says. */
  method UpdateReview(db: Database, reviewId: int, rating: int, comments: Maybe<string>)
    modifies db
    requires Valid(db.State())
    ensures Valid(db.State())
    ensures db.State().(reviews := old(db.reviews)) == old(db.State())
    ensures |db.reviews| == |old(db.reviews)|
    ensures forall i :: 0 <= i < |db.reviews| ==>
      db.reviews[i] == if old(db.reviews[i]).id != reviewId then old(db.reviews[i])
        else old(db.reviews[i]).(rating := rating,
                                 comments := if comments.Undefined? then old(db.reviews[i]).comments else comments.OrNull())
  {
    var updates := [SetRating(rating)];
    if !comments.Undefined? {
      updates := updates + [SetComments(comments.OrNull())];
    }
    assert updates == ReviewSets(rating, comments);
    UpdateRows(db, UpdateWhere(reviewId, updates));
    forall v: ReviewRow | v.id == reviewId
      ensures ApplyReviewSets(v, updates)
        == v.(rating := rating, comments := if comments.Undefined? then v.comments else comments.OrNull())
    {
      ReviewSetsMeaning(v, rating, comments);
    }
  }

  /** Rewrites every review row with `f`, which keeps the key columns. */
  method UpdateRows(db: Database, f: ReviewRow -> ReviewRow)
    modifies db
    requires Valid(db.State())
    requires forall v :: f(v).id == v.id && f(v).userId == v.userId && f(v).restaurantId == v.restaurantId
    ensures Valid(db.State())
    ensures db.State() == old(db.State()).(reviews := Seqs.Map(old(db.reviews), f))
  {
    MapReviewsValid(db.State(), f);
    db.reviews := Seqs.Map(db.reviews, f);
  }

  function IdIsNot(reviewId: int): ReviewRow -> bool {
    (v: ReviewRow) => v.id != reviewId
  }

  function OfOtherRestaurant(restaurantId: int): ReviewRow -> bool {
    (v: ReviewRow) => v.restaurantId != restaurantId
  }

  /** deleteReview: removes the row with that id and nothing else. */
  method DeleteReview(db: Database, reviewId: int)
    modifies db
    requires Valid(db.State())
    ensures Valid(db.State())
    ensures db.State() == old(db.State()).(reviews := Seqs.Filter(old(db.reviews), IdIsNot(reviewId)))
  {
    FilterReviewsValid(db.State(), IdIsNot(reviewId));
    db.reviews := Seqs.Filter(db.reviews, IdIsNot(reviewId));
  }

  /** After a delete by id no row carries that id, and every other row is kept. */
  lemma DeletedReviewGone(reviews: seq<ReviewRow>, reviewId: int)
    ensures var kept := Seqs.Filter(reviews, IdIsNot(reviewId));
      forall i :: 0 <= i < |kept| ==> kept[i].id != reviewId
    ensures forall v :: v in Seqs.Filter(reviews, IdIsNot(reviewId)) <==> v in reviews && v.id != reviewId
  {
  }

  /** deleteForRestaurant: removes every review of that restaurant and no
      other. */
  method DeleteForRestaurant(db: Database, restaurantId: int)
    modifies db
    requires Valid(db.State())
    ensures Valid(db.State())
    ensures db.State() == old(db.State()).(reviews := Seqs.Filter(old(db.reviews), OfOtherRestaurant(restaurantId)))
  {
    FilterReviewsValid(db.State(), OfOtherRestaurant(restaurantId));
    db.reviews := Seqs.Filter(db.reviews, OfOtherRestaurant(restaurantId));
  }
}
