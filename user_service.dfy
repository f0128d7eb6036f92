/** The signed-in user's own resources: the profile, the reviews written
    and the favorites. Every write is scoped to the caller: a review that
    is not the caller's is reported missing. */
module UserService {
  import opened Wrappers
  import opened Tables
  import opened AppErrors
  import Seqs
  import Sorting
  import Text
  import Zod
  import ReviewDto
  import ResponseDto
  import UserRepository
  import RestaurantRepository
  import ReviewRepository
  import FavoriteRepository

  const UserNotFound := Raise("USER_NOT_FOUND", 404, "USER_NOT_FOUND")
  const ReviewNotFound := Raise("REVIEW_NOT_FOUND", 404, "REVIEW_NOT_FOUND")
  const RestaurantNotFound := Raise("RESTAURANT_NOT_FOUND", 404, "RESTAURANT_NOT_FOUND")
  const AlreadyFavorite := Raise("ALREADY_FAVORITE", 409, "ALREADY_FAVORITE")

  /** getUserById: 404 for an unknown id; otherwise the id, role and the
      e-mail trimmed and lower-cased by the response schema, which refuses
      a stored e-mail that is not one. */
  function GetUserById(t: Tables, id: int, isEmail: string -> bool): (r: Result<ResponseDto.UserResponse, Failure>)
    ensures (forall i :: 0 <= i < |t.users| ==> t.users[i].id != id) ==> r == Err(UserNotFound)
    ensures r.Ok? ==> exists u :: (u in t.users && u.id == id && isEmail(u.email)
      && r.value == ResponseDto.UserResponse(id, Text.ToLower(Text.Trim(u.email)), u.role))
    ensures forall u :: u in t.users && u.id == id && !isEmail(u.email) && UserById(t.users, id) == Some(u) ==>
      r == Err(ZodFailure(Zod.Issue(["email"], Zod.InvalidEmailMessage)))
  {
    match UserRepository.FindUserById(t, id)
    case None => Err(UserNotFound)
    case Some(u) =>
      match ResponseDto.ParseUserResponse(u, isEmail)
      case Ok(v) => Ok(v)
      case Err(issue) => Err(ZodFailure(issue))
  }

  /** A user that exists and whose stored e-mail is valid always gets a
      profile back, with the same id. */
  lemma KnownUserFound(t: Tables, u: UserRow, isEmail: string -> bool)
    requires Valid(t) && u in t.users && isEmail(u.email)
    ensures GetUserById(t, u.id, isEmail).Ok?
    ensures GetUserById(t, u.id, isEmail).value.id == u.id
    ensures GetUserById(t, u.id, isEmail).value.role == u.role
  {
    IdsUnique(t);
    var v := UserById(t.users, u.id);
    assert v.Some? && v.value in t.users && v.value.id == u.id;
    assert v.value == u;
  }

  /** Two user rows with the same id are the same row. */
  lemma IdsUnique(t: Tables)
    requires Valid(t)
    ensures forall a, b :: a in t.users && b in t.users && a.id == b.id ==> a == b
  {
    forall a, b | a in t.users && b in t.users && a.id == b.id
      ensures a == b
    {
      var i :| 0 <= i < |t.users| && t.users[i] == a;
      var j :| 0 <= j < |t.users| && t.users[j] == b;
      assert forall m, n :: 0 <= m < n < |t.users| ==> t.users[m].id < t.users[n].id;
    }
  }

  /** listReviewsByUser: the caller's reviews, each once, newest first,
      each with the name of its restaurant. */
  function ListReviewsByUser(t: Tables, userId: int): (r: seq<ResponseDto.UserReview>)
    ensures Sorting.SortedBy(r, ReviewRepository.UserReviewNewerFirst)
    ensures forall e :: e in r ==>
      && e.review in t.reviews && e.review.userId == userId
      && RestaurantById(t.restaurants, e.review.restaurantId).Some?
      && RestaurantById(t.restaurants, e.review.restaurantId).value.name == e.restaurantName
    ensures forall v :: v in t.reviews && v.userId == userId && RestaurantById(t.restaurants, v.restaurantId).Some? ==>
      exists e :: e in r && e.review == v
    ensures Valid(t) ==> forall i, j :: 0 <= i < j < |r| ==> r[i].review.id != r[j].review.id
  {
    ReviewRepository.ListReviewsByUser(t, userId)
  }

  /** What updateReview does to the row it hits. */
  function Rewritten(v: ReviewRow, input: ReviewDto.ReviewInput): ReviewRow {
    v.(rating := input.rating, comments := if input.comments.Undefined? then v.comments else input.comments.OrNull())
  }

  /** `after` is `before` with review `reviewId` rewritten by `input`:
      every other row and every other table as it was. */
  predicate ReviewRewritten(before: Tables, after: Tables, reviewId: int, input: ReviewDto.ReviewInput) {
    && after.(reviews := before.reviews) == before
    && |after.reviews| == |before.reviews|
    && forall i :: 0 <= i < |after.reviews| ==>
         after.reviews[i] == if before.reviews[i].id != reviewId then before.reviews[i] else Rewritten(before.reviews[i], input)
  }

  /** updateUserReview: 404 unless the review exists and is the caller's;
      otherwise its rating is replaced, its comments replaced when the body
      carries them (null clears them), and nothing else changes. */
  method UpdateUserReview(db: Database, reviewId: int, input: ReviewDto.ReviewInput, userId: int)
    returns (r: Result<int, Failure>)
    modifies db
    requires Valid(db.State())
    ensures Valid(db.State())
    ensures ReviewRepository.FindUserReview(old(db.State()), reviewId, userId).None? ==>
      r == Err(ReviewNotFound) && db.State() == old(db.State())
    ensures ReviewRepository.FindUserReview(old(db.State()), reviewId, userId).Some? ==>
      r == Ok(reviewId) && ReviewRewritten(old(db.State()), db.State(), reviewId, input)
  {
    var review := ReviewRepository.FindUserReview(db.State(), reviewId, userId);
    if review.None? {
      return Err(ReviewNotFound);
    }
    ReviewRepository.UpdateReview(db, reviewId, input.rating, input.comments);
    r := Ok(reviewId);
  }

  /** Review ids are unique, so the row an update or a delete addresses by
      id alone is the caller's own: no other user's review is touched. */
  lemma OnlyOwnReviewAddressed(t: Tables, reviewId: int, userId: int)
    requires Valid(t)
    requires ReviewRepository.FindUserReview(t, reviewId, userId).Some?
    ensures forall i :: 0 <= i < |t.reviews| && t.reviews[i].id == reviewId ==> t.reviews[i].userId == userId
  {
    var own := ReviewRepository.FindUserReview(t, reviewId, userId).value;
    var k :| 0 <= k < |t.reviews| && t.reviews[k] == own;
    assert forall m, n :: 0 <= m < n < |t.reviews| ==> t.reviews[m].id < t.reviews[n].id;
  }

  /** deleteUserReview: 404 unless the review exists and is the caller's;
      otherwise that row is removed and nothing else. */
  method DeleteUserReview(db: Database, reviewId: int, userId: int)
    returns (r: Result<int, Failure>)
    modifies db
    requires Valid(db.State())
    ensures Valid(db.State())
    ensures ReviewRepository.FindUserReview(old(db.State()), reviewId, userId).None? ==>
      r == Err(ReviewNotFound) && db.State() == old(db.State())
    ensures ReviewRepository.FindUserReview(old(db.State()), reviewId, userId).Some? ==>
      && r == Ok(reviewId)
      && db.State() == old(db.State()).(reviews := Seqs.Filter(old(db.reviews), ReviewRepository.IdIsNot(reviewId)))
      && ReviewRepository.FindReviewById(db.State(), reviewId).None?
      && (forall v :: v in db.reviews <==> v in old(db.reviews) && v.id != reviewId)
  {
    var review := ReviewRepository.FindUserReview(db.State(), reviewId, userId);
    if review.None? {
      return Err(ReviewNotFound);
    }
    ReviewRepository.DeleteReview(db, reviewId);
    ReviewRepository.DeletedReviewGone(old(db.reviews), reviewId);
    r := Ok(reviewId);
  }

  /** addFavorite: 404 for an unknown restaurant before the 409 for a pair
      already saved; otherwise the insert, whose "DUPLICATE" is the same
      409, and the restaurant id. `rival` stands for the same pair saved by
      a concurrent request between the check and the insert;
      `storageFault` for any other error of the INSERT, which propagates. */
  method AddFavorite(db: Database, userId: int, restaurantId: int, rival: bool, storageFault: bool)
    returns (r: Result<int, Failure>)
    modifies db
    requires Valid(db.State())
    ensures Valid(db.State())
    ensures !RestaurantRepository.RestaurantExists(old(db.State()), restaurantId) ==>
      r == Err(RestaurantNotFound) && db.State() == old(db.State())
    ensures (RestaurantRepository.RestaurantExists(old(db.State()), restaurantId)
      && FavoriteRepository.FavoriteExists(old(db.State()), userId, restaurantId)) ==>
      r == Err(AlreadyFavorite) && db.State() == old(db.State())
    ensures (RestaurantRepository.RestaurantExists(old(db.State()), restaurantId) && rival) ==>
      r == Err(AlreadyFavorite)
    ensures (RestaurantRepository.RestaurantExists(old(db.State()), restaurantId)
      && !FavoriteRepository.FavoriteExists(old(db.State()), userId, restaurantId) && rival) ==>
      db.State() == old(db.State()).(favorites := old(db.favorites) + [FavoriteRow(userId, restaurantId)])
    ensures (RestaurantRepository.RestaurantExists(old(db.State()), restaurantId)
      && !FavoriteRepository.FavoriteExists(old(db.State()), userId, restaurantId) && !rival) ==>
      && (storageFault ==> r == Err(OtherFailure) && db.State() == old(db.State()))
      && (!storageFault ==> (r == Ok(restaurantId)
            && db.State() == old(db.State()).(favorites := old(db.favorites) + [FavoriteRow(userId, restaurantId)])))
    ensures r.Ok? ==> FavoriteRepository.FavoriteExists(db.State(), userId, restaurantId)
  {
    if RestaurantRepository.FindRestaurantById(db.State(), restaurantId).None? {
      return Err(RestaurantNotFound);
    }
    if FavoriteRepository.FavoriteExists(db.State(), userId, restaurantId) {
      return Err(AlreadyFavorite);
    }
    if rival {
      var _ := FavoriteRepository.InsertFavorite(db, userId, restaurantId, false);
    }
    var result := FavoriteRepository.InsertFavorite(db, userId, restaurantId, storageFault);
    if result.Err? {
      return Err(result.error);
    }
    if result.value.Duplicate? {
      return Err(AlreadyFavorite);
    }
    r := Ok(restaurantId);
  }

  /** removeFavorite: the pair is no longer saved, every other favorite is,
      and the restaurant id comes back whether or not the pair was saved. */
  method RemoveFavorite(db: Database, userId: int, restaurantId: int) returns (r: int)
    modifies db
    requires Valid(db.State())
    ensures Valid(db.State())
    ensures r == restaurantId
    ensures db.State() == old(db.State()).(favorites := Seqs.Filter(old(db.favorites), FavoriteRepository.IsNot(FavoriteRow(userId, restaurantId))))
    ensures !FavoriteRepository.FavoriteExists(db.State(), userId, restaurantId)
    ensures !FavoriteRepository.FavoriteExists(old(db.State()), userId, restaurantId) ==> db.State() == old(db.State())
  {
    FavoriteRepository.DeleteFavorite(db, userId, restaurantId);
    r := restaurantId;
  }

  /** Removing a favorite twice leaves the same database as removing it
      once. */
  lemma RemoveIsIdempotent(favorites: seq<FavoriteRow>, row: FavoriteRow)
    ensures Seqs.Filter(Seqs.Filter(favorites, FavoriteRepository.IsNot(row)), FavoriteRepository.IsNot(row))
      == Seqs.Filter(favorites, FavoriteRepository.IsNot(row))
  {
    FavoriteRepository.AbsentPairDeletesNothing(Seqs.Filter(favorites, FavoriteRepository.IsNot(row)), row);
  }

  /** Saving a favorite and then removing it gives back the favorites there
      were before. */
  lemma AddThenRemove(favorites: seq<FavoriteRow>, row: FavoriteRow)
    requires row !in favorites
    ensures Seqs.Filter(favorites + [row], FavoriteRepository.IsNot(row)) == favorites
  {
    Seqs.FilterAppend(favorites, [row], FavoriteRepository.IsNot(row));
    FavoriteRepository.AbsentPairDeletesNothing(favorites, row);
    assert Seqs.Filter([row], FavoriteRepository.IsNot(row)) == [];
  }

  /** listFavoritesByUser: the caller's saved restaurants, each with its
      derived rating. */
  function ListFavoritesByUser(t: Tables, userId: int): (r: seq<Rated>)
    ensures forall x :: x in r ==>
      && x.row in t.restaurants
      && x.rating == RatingOf(t.reviews, x.row.id)
      && FavoriteRepository.FavoriteExists(t, userId, x.row.id)
    ensures forall row ::
      (row in t.restaurants && FavoriteRow(userId, row.id) in t.favorites && RestaurantById(t.restaurants, row.id) == Some(row))
      ==> WithRating(t.reviews, row) in r
    ensures Valid(t) ==> forall i, j :: 0 <= i < j < |r| ==> r[i].row.id != r[j].row.id
  {
    FavoriteRepository.ListFavoritesByUser(t, userId)
  }
}
