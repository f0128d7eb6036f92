/** The public restaurant service: it turns a validated listing query into
    the WHERE conditions, ORDER BY and offset the repository takes, guards
    the detail and review lookups with a 404, and creates a review after the
    existence and duplicate checks. */
module RestaurantService {
  import opened Wrappers
  import opened Tables
  import opened AppErrors
  import Seqs
  import Text
  import RestaurantDto
  import ReviewDto
  import ResponseDto
  import RestaurantRepository
  import ReviewRepository

  // ---------------------------------------------------------------------
  // listRestaurants
  // ---------------------------------------------------------------------

  /** `if (value)`: a string filter counts only when it is present and not
      empty. */
  predicate Truthy(v: Maybe<string>) {
    v.Given? && v.value != ""
  }

  /** What the listing is meant to keep, stated without the WHERE clause: a
      non-empty cuisine or neighborhood must match exactly, and a rating
      threshold bounds the derived rating (0 for a restaurant without
      reviews) from below. */
  predicate Wanted(q: RestaurantDto.RestaurantsQuery, x: Rated) {
    && (Truthy(q.cuisineType) ==> x.row.cuisineType == NonNull(q.cuisineType.value))
    && (Truthy(q.neighborhood) ==> x.row.neighborhood == NonNull(q.neighborhood.value))
    && (q.rating.Some? ==> x.rating >= q.rating.value)
  }

  function WantedBy(q: RestaurantDto.RestaurantsQuery): Rated -> bool {
    (x: Rated) => Wanted(q, x)
  }

  /** The restaurants the query selects, in row order. */
  function Matching(t: Tables, q: RestaurantDto.RestaurantsQuery): seq<Rated> {
    Seqs.Filter(RestaurantRepository.AllRated(t), WantedBy(q))
  }

  /** The sort field by its query name; any other name falls back to name. */
  function FieldNamed(f: string): (r: RestaurantRepository.SortField)
    ensures r == RestaurantRepository.ByName <==> f !in {"rating", "cuisine_type", "neighborhood"}
  {
    if f == "rating" then RestaurantRepository.ByRating
    else if f == "cuisine_type" then RestaurantRepository.ByCuisine
    else if f == "neighborhood" then RestaurantRepository.ByNeighborhood
    else RestaurantRepository.ByName
  }

  /** The ORDER BY clause for `sort`: none when it is absent or empty;
      otherwise the whitelisted field before the colon and DESC only when
      the part after it is exactly "desc". */
  function SortClause(sort: Option<string>): (o: Option<RestaurantRepository.Order>)
    ensures o.None? <==> sort.None? || sort.value == ""
    ensures o.Some? ==>
      var parts := Text.Split(sort.value, ':');
      && o.value.field == FieldNamed(parts[0])
      && (o.value.dir == RestaurantRepository.Desc <==> |parts| > 1 && parts[1] == "desc")
  {
    if sort.None? || sort.value == "" then None
    else
      var parts := Text.Split(sort.value, ':');
      var dir := if |parts| > 1 && parts[1] == "desc" then RestaurantRepository.Desc else RestaurantRepository.Asc;
      Some(RestaurantRepository.Order(FieldNamed(parts[0]), dir))
  }

  /** `sort=name:DESC` passes the query schema (its pattern ignores case) but
      the direction test is case-sensitive, so it sorts ascending. */
  lemma NameDescSortsAscending()
    ensures RestaurantDto.IsSortSpec("name:DESC")
    ensures SortClause(Some("name:DESC")) == Some(RestaurantRepository.Order(RestaurantRepository.ByName, RestaurantRepository.Asc))
  {
    NameDescPassesPattern();
    NameDescClause();
  }

  lemma NameDescPassesPattern()
    ensures RestaurantDto.IsSortSpec("name:DESC")
  {
    NameDescSplit();
    DescLowered();
  }

  lemma DescLowered()
    ensures Text.ToLower("DESC") == "desc"
  {
  }

  lemma NameDescClause()
    ensures SortClause(Some("name:DESC")) == Some(RestaurantRepository.Order(RestaurantRepository.ByName, RestaurantRepository.Asc))
  {
    NameDescSplit();
  }

  lemma NameDescSplit()
    ensures Text.Split("name:DESC", ':') == ["name", "DESC"]
  {
    Text.SplitJoin(["name", "DESC"], ':');
    assert Text.Join(["name", "DESC"], ':') == "name:DESC";
  }

  /** A field outside the whitelist sorts by name, in the direction asked. */
  lemma UnknownFieldSortsByName(field: string, dir: string)
    requires ':' !in field && ':' !in dir
    requires field !in {"name", "rating", "cuisine_type", "neighborhood"}
    ensures SortClause(Some(field + ":" + dir)).Some?
    ensures SortClause(Some(field + ":" + dir)).value.field == RestaurantRepository.ByName
    ensures SortClause(Some(field + ":" + dir)).value.dir == (if dir == "desc" then RestaurantRepository.Desc else RestaurantRepository.Asc)
  {
    Text.SplitJoin([field, dir], ':');
    assert Text.Join([field, dir], ':') == field + ":" + dir;
  }

  /** The listing response: the projected rows and the pagination the
      repository computed. */
  datatype ListPage = ListPage(data: seq<ResponseDto.ListItem>, pagination: RestaurantRepository.Pagination)

  /** The page listRestaurants answers for `q`, as one value. */
  function PageFor(t: Tables, q: RestaurantDto.RestaurantsQuery): ListPage
    requires q.page >= 1 && q.limit >= 1
  {
    ListPage(
      Seqs.Map(Seqs.Window(RestaurantRepository.Ordered(Matching(t, q), SortClause(q.sort)), q.limit, Offset(q.page, q.limit)),
        ResponseDto.ToListItem),
      RestaurantRepository.Pagination(|Matching(t, q)|, q.limit, q.page as real))
  }

  /** listRestaurants: the requested page of the restaurants the query
      selects, in the order it asks for, each projected to the list-item
      fields; `total` counts the whole selection and `page` reports the page
      asked for. */
  method ListRestaurants(db: Database, q: RestaurantDto.RestaurantsQuery) returns (r: ListPage)
    requires q.page >= 1 && q.limit >= 1
    ensures r == PageFor(db.State(), q)
    ensures r.pagination.total == |Matching(db.State(), q)|
    ensures r.pagination.limit == q.limit
    ensures r.pagination.page == q.page as real
    ensures r.data == Seqs.Map(
      Seqs.Window(RestaurantRepository.Ordered(Matching(db.State(), q), SortClause(q.sort)), q.limit, Offset(q.page, q.limit)),
      ResponseDto.ToListItem)
  {
    var conds: seq<RestaurantRepository.Cond> := [];
    if Truthy(q.cuisineType) {
      conds := conds + [RestaurantRepository.CuisineIs(q.cuisineType.value)];
    }
    if Truthy(q.neighborhood) {
      conds := conds + [RestaurantRepository.NeighborhoodIs(q.neighborhood.value)];
    }
    assert conds == PushedConditions(q);
    var offset := Offset(q.page, q.limit);
    ConditionsMeanWanted(db.State(), q);
    var rows := RestaurantRepository.ListRestaurants(db, conds, SortClause(q.sort), q.limit, offset, q.rating);
    PageReported(q.page, q.limit);
    r := ListPage(Seqs.Map(rows.data, ResponseDto.ToListItem), rows.pagination);
  }

  /** The number of rows before page `page`. */
  function Offset(page: int, limit: int): (n: nat)
    requires page >= 1 && limit >= 1
    ensures n == (page - 1) * limit
  {
    var k: nat := page - 1;
    NonNegativeProduct(k, limit);
    k * limit
  }

  /** The repository computes `page` back from the offset: it is the page
      that was asked for. */
  lemma PageReported(page: int, limit: int)
    requires page >= 1 && limit >= 1
    ensures RestaurantRepository.PageOf(Offset(page, limit), limit) == page as real
  {
    RestaurantRepository.PageRoundTrip(page, limit, Offset(page, limit));
  }

  lemma NonNegativeProduct(a: nat, b: nat)
    ensures a * b >= 0
  {
  }

  /** The conditions listRestaurants pushes before the repository adds the
      rating threshold. */
  function PushedConditions(q: RestaurantDto.RestaurantsQuery): seq<RestaurantRepository.Cond> {
    (if Truthy(q.cuisineType) then [RestaurantRepository.CuisineIs(q.cuisineType.value)] else [])
    + (if Truthy(q.neighborhood) then [RestaurantRepository.NeighborhoodIs(q.neighborhood.value)] else [])
  }

  /** The conditions listRestaurants pushes, with the rating threshold the
      repository appends, select exactly the wanted restaurants. */
  lemma ConditionsMeanWanted(t: Tables, q: RestaurantDto.RestaurantsQuery)
    ensures RestaurantRepository.Selected(t, RestaurantRepository.FinalWhere(PushedConditions(q), q.rating)) == Matching(t, q)
  {
    var conds := PushedConditions(q);
    var f := RestaurantRepository.FinalWhere(conds, q.rating);
    forall x: Rated
      ensures RestaurantRepository.HoldsAll(f, x) == Wanted(q, x)
    {
      if Wanted(q, x) {
        forall i | 0 <= i < |f| ensures RestaurantRepository.Holds(f[i], x) {
        }
      } else if Truthy(q.cuisineType) && x.row.cuisineType != NonNull(q.cuisineType.value) {
        assert !RestaurantRepository.Holds(f[0], x);
      } else if Truthy(q.neighborhood) && x.row.neighborhood != NonNull(q.neighborhood.value) {
        assert !RestaurantRepository.Holds(f[|conds| - 1], x);
      } else {
        assert !RestaurantRepository.Holds(f[|conds|], x);
      }
    }
    Seqs.FilterAgree(RestaurantRepository.AllRated(t), (x: Rated) => RestaurantRepository.HoldsAll(f, x), WantedBy(q));
  }

  // ---------------------------------------------------------------------
  // Lookups
  // ---------------------------------------------------------------------

  const RestaurantNotFound := Raise("Restaurant not found", 404, "RESTAURANT_NOT_FOUND")

  /** getRestaurantById: 404 for an unknown id, otherwise the detail. */
  function GetRestaurantById(t: Tables, id: int): (r: Result<ResponseDto.Detail, Failure>)
    ensures r.Err? <==> !RestaurantRepository.RestaurantExists(t, id)
    ensures r.Err? ==> r.error == RestaurantNotFound
    ensures r.Ok? ==> Some(r.value) == RestaurantRepository.FindRestaurantById(t, id)
  {
    match RestaurantRepository.FindRestaurantById(t, id)
    case None => Err(RestaurantNotFound)
    case Some(d) => Ok(d)
  }

  /** listReviewsForRestaurant: 404 for an unknown id; otherwise the
      restaurant's reviews, newest first, refused as a validation failure
      when a stored author email is not a valid email. */
  function ListReviewsForRestaurant(t: Tables, id: int, isEmail: string -> bool): (r: Result<seq<ResponseDto.RestaurantReview>, Failure>)
    ensures !RestaurantRepository.RestaurantExists(t, id) ==> r == Err(RestaurantNotFound)
    ensures RestaurantRepository.RestaurantExists(t, id) ==>
      match ResponseDto.ParseRestaurantReviews(ReviewRepository.ListReviewsForRestaurant(t, id), isEmail)
      case Ok(rows) => r == Ok(rows)
      case Err(issue) => r == Err(ZodFailure(issue))
    ensures r.Ok? ==> forall x :: x in r.value ==> x.review in t.reviews && x.review.restaurantId == id
  {
    if !RestaurantRepository.RestaurantExists(t, id) then Err(RestaurantNotFound)
    else
      match ResponseDto.ParseRestaurantReviews(ReviewRepository.ListReviewsForRestaurant(t, id), isEmail)
      case Ok(rows) => Ok(rows)
      case Err(issue) => Err(ZodFailure(issue))
  }

  // ---------------------------------------------------------------------
  // createReviewForRestaurant
  // ---------------------------------------------------------------------

  const AlreadyReviewed := Raise("You already reviewed this restaurant", 409, "ALREADY_REVIEWED")

  /** The row a concurrent request inserts for the same pair when it wins
      the race between the duplicate check and the insert. */
  function RivalReview(t: Tables, userId: int, restaurantId: int, rival: ReviewDto.ReviewInput, now: int): ReviewRow {
    ReviewRow(t.nextReviewId, userId, restaurantId, rival.rating, rival.comments.OrNull(), now)
  }

  /** The tables after createReviewForRestaurant: unchanged when the
      restaurant is unknown or the pair already has a review; otherwise the
      rival's row when a concurrent request won the race, nothing when the
      INSERT failed, and the new review if neither. */
  function AfterReview(t: Tables, userId: int, restaurantId: int, input: ReviewDto.ReviewInput, now: int,
    rival: Option<ReviewDto.ReviewInput>, storageFault: bool): Tables
  {
    if !RestaurantRepository.RestaurantExists(t, restaurantId) || ReviewRepository.UserHasReview(t, userId, restaurantId) then t
    else if rival.Some? then
      t.(reviews := t.reviews + [RivalReview(t, userId, restaurantId, rival.value, now)], nextReviewId := t.nextReviewId + 1)
    else if storageFault then t
    else
      var row := ReviewRow(t.nextReviewId, userId, restaurantId, input.rating, input.comments.OrNull(), now);
      t.(reviews := t.reviews + [row], nextReviewId := t.nextReviewId + 1)
  }

  /** createReviewForRestaurant: 404 for an unknown restaurant before the
      409 for a pair that already has a review; otherwise the insert, whose
      "DUPLICATE" is the same 409, and the new row id. `rival` is a review
      of the same pair that a concurrent request inserts between the check
      and the insert; `storageFault` is any other error of the INSERT, which
      propagates. */
  method CreateReviewForRestaurant(
    db: Database, userId: int, restaurantId: int, input: ReviewDto.ReviewInput,
    now: int, rival: Option<ReviewDto.ReviewInput>, storageFault: bool)
    returns (r: Result<int, Failure>)
    modifies db
    requires Valid(db.State())
    ensures Valid(db.State())
    ensures db.State() == AfterReview(old(db.State()), userId, restaurantId, input, now, rival, storageFault)
    ensures !RestaurantRepository.RestaurantExists(old(db.State()), restaurantId) ==> r == Err(RestaurantNotFound)
    ensures (RestaurantRepository.RestaurantExists(old(db.State()), restaurantId)
      && ReviewRepository.UserHasReview(old(db.State()), userId, restaurantId)) ==>
      r == Err(AlreadyReviewed)
    ensures (RestaurantRepository.RestaurantExists(old(db.State()), restaurantId)
      && !ReviewRepository.UserHasReview(old(db.State()), userId, restaurantId)
      && rival.None? && !storageFault) ==>
      r == Ok(old(db.nextReviewId))
    ensures rival.None? && storageFault ==> r.Err? && db.State() == old(db.State())
    ensures RestaurantRepository.RestaurantExists(old(db.State()), restaurantId) && rival.Some? && !storageFault ==>
      r == Err(AlreadyReviewed)
    ensures (RestaurantRepository.RestaurantExists(old(db.State()), restaurantId)
      && !ReviewRepository.UserHasReview(old(db.State()), userId, restaurantId) && storageFault) ==>
      r == Err(OtherFailure)
    ensures r.Ok? ==> ReviewRepository.UserHasReview(db.State(), userId, restaurantId)
  {
    if !RestaurantRepository.RestaurantExists(db.State(), restaurantId) {
      return Err(RestaurantNotFound);
    }
    if ReviewRepository.UserHasReview(db.State(), userId, restaurantId) {
      return Err(AlreadyReviewed);
    }
    if rival.Some? {
      var _ := ReviewRepository.InsertReview(db, userId, restaurantId, rival.value.rating, rival.value.comments, now, false);
      assert db.reviews[|db.reviews| - 1].userId == userId && db.reviews[|db.reviews| - 1].restaurantId == restaurantId;
    }
    var result := ReviewRepository.InsertReview(db, userId, restaurantId, input.rating, input.comments, now, storageFault);
    if result.Err? {
      return Err(result.error);
    }
    if result.value.Duplicate? {
      return Err(AlreadyReviewed);
    }
    r := Ok(result.value.id);
    assert db.reviews[|db.reviews| - 1].userId == userId;
  }
}
