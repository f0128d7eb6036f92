/** The SQLite database as five tables of rows held in rowid order, each with
    the auto-increment counter that numbers its next row. */
module Tables {
  import opened Wrappers
  import Seqs

  datatype Role = UserRole | AdminRole

  /** The stored and transmitted spelling of a role. */
  function RoleName(r: Role): (s: string)
    ensures s == "USER" || s == "ADMIN"
  {
    match r
    case UserRole => "USER"
    case AdminRole => "ADMIN"
  }

  datatype UserRow = UserRow(id: int, name: string, email: string, password: string, role: Role)

  datatype RestaurantRow = RestaurantRow(
    id: int,
    name: string,
    neighborhood: Nullable<string>,
    cuisineType: Nullable<string>,
    address: Nullable<string>,
    photograph: Nullable<string>,
    lat: Nullable<real>,
    lng: Nullable<real>,
    image: Nullable<string>)

  datatype HoursRow = HoursRow(id: int, restaurantId: int, day: string, hours: string)

  /** `createdAt` is the insertion time as a count of seconds; SQLite keeps it
      as text whose order is the same. */
  datatype ReviewRow = ReviewRow(
    id: int,
    userId: int,
    restaurantId: int,
    rating: int,
    comments: Nullable<string>,
    createdAt: int)

  datatype FavoriteRow = FavoriteRow(userId: int, restaurantId: int)

  /** A snapshot of the whole database. Each table's next id only grows,
      so the id of a deleted row is never handed out again (AUTOINCREMENT). */
  datatype Tables = Tables(
    users: seq<UserRow>,
    restaurants: seq<RestaurantRow>,
    hours: seq<HoursRow>,
    reviews: seq<ReviewRow>,
    favorites: seq<FavoriteRow>,
    nextUserId: int,
    nextRestaurantId: int,
    nextHoursId: int,
    nextReviewId: int)

  /** Users are in increasing id order and no two share an e-mail. */
  predicate UsersApart(a: UserRow, b: UserRow) {
    a.id < b.id && a.email != b.email
  }

  predicate RestaurantsApart(a: RestaurantRow, b: RestaurantRow) {
    a.id < b.id
  }

  predicate HoursApart(a: HoursRow, b: HoursRow) {
    a.id < b.id
  }

  /** Reviews are in increasing id order and no user reviews a restaurant
      twice. */
  predicate ReviewsApart(a: ReviewRow, b: ReviewRow) {
    a.id < b.id && (a.userId != b.userId || a.restaurantId != b.restaurantId)
  }

  /** A (user, restaurant) pair is a favorite at most once. */
  predicate FavoritesApart(a: FavoriteRow, b: FavoriteRow) {
    a != b
  }

  /** The constraints the schema enforces: unique ids below the table's
      counter, unique e-mails, one review and one favorite per (user,
      restaurant) pair. */
  predicate Valid(t: Tables) {
    && t.nextUserId >= 1 && t.nextRestaurantId >= 1 && t.nextHoursId >= 1 && t.nextReviewId >= 1
    && (forall i :: 0 <= i < |t.users| ==> 1 <= t.users[i].id < t.nextUserId)
    && (forall i :: 0 <= i < |t.restaurants| ==> 1 <= t.restaurants[i].id < t.nextRestaurantId)
    && (forall i :: 0 <= i < |t.hours| ==> 1 <= t.hours[i].id < t.nextHoursId)
    && (forall i :: 0 <= i < |t.reviews| ==> 1 <= t.reviews[i].id < t.nextReviewId)
    && Seqs.Pairwise(t.users, UsersApart)
    && Seqs.Pairwise(t.restaurants, RestaurantsApart)
    && Seqs.Pairwise(t.hours, HoursApart)
    && Seqs.Pairwise(t.reviews, ReviewsApart)
    && Seqs.Pairwise(t.favorites, FavoritesApart)
  }

  /** The first restaurant row with that id (WHERE id = ?). */
  function RestaurantById(rows: seq<RestaurantRow>, id: int): (r: Option<RestaurantRow>)
    ensures r.None? <==> forall i :: 0 <= i < |rows| ==> rows[i].id != id
    ensures r.Some? ==> r.value in rows && r.value.id == id
  {
    if rows == [] then None
    else if rows[0].id == id then Some(rows[0])
    else RestaurantById(rows[1..], id)
  }

  /** The first user row with that id. */
  function UserById(rows: seq<UserRow>, id: int): (r: Option<UserRow>)
    ensures r.None? <==> forall i :: 0 <= i < |rows| ==> rows[i].id != id
    ensures r.Some? ==> r.value in rows && r.value.id == id
  {
    if rows == [] then None
    else if rows[0].id == id then Some(rows[0])
    else UserById(rows[1..], id)
  }

  function Empty(): (t: Tables)
    ensures Valid(t)
  {
    Tables([], [], [], [], [], 1, 1, 1, 1)
  }

  // ---------------------------------------------------------------------
  // The statements that change one table keep the constraints
  // ---------------------------------------------------------------------

  lemma AppendUserValid(t: Tables, row: UserRow)
    requires Valid(t) && row.id == t.nextUserId
    requires forall i :: 0 <= i < |t.users| ==> t.users[i].email != row.email
    ensures Valid(t.(users := t.users + [row], nextUserId := t.nextUserId + 1))
  {
    var rows := t.users + [row];
    assert forall i :: 0 <= i < |rows| ==> 1 <= rows[i].id < t.nextUserId + 1 by {
      forall i | 0 <= i < |rows| ensures 1 <= rows[i].id < t.nextUserId + 1 {
        if i < |t.users| { assert rows[i] == t.users[i]; }
      }
    }
    Seqs.AppendPairwise(t.users, row, UsersApart);
  }

  lemma AppendRestaurantValid(t: Tables, row: RestaurantRow)
    requires Valid(t) && row.id == t.nextRestaurantId
    ensures Valid(t.(restaurants := t.restaurants + [row], nextRestaurantId := t.nextRestaurantId + 1))
  {
    var rows := t.restaurants + [row];
    assert forall i :: 0 <= i < |rows| ==> 1 <= rows[i].id < t.nextRestaurantId + 1 by {
      forall i | 0 <= i < |rows| ensures 1 <= rows[i].id < t.nextRestaurantId + 1 {
        if i < |t.restaurants| { assert rows[i] == t.restaurants[i]; }
      }
    }
    Seqs.AppendPairwise(t.restaurants, row, RestaurantsApart);
  }

  lemma MapRestaurantsValid(t: Tables, f: RestaurantRow -> RestaurantRow)
    requires Valid(t)
    requires forall r :: f(r).id == r.id
    ensures Valid(t.(restaurants := Seqs.Map(t.restaurants, f)))
  {
    Seqs.MapPairwise(t.restaurants, f, RestaurantsApart, RestaurantsApart);
  }

  lemma FilterRestaurantsValid(t: Tables, p: RestaurantRow -> bool)
    requires Valid(t)
    ensures Valid(t.(restaurants := Seqs.Filter(t.restaurants, p)))
  {
    Seqs.FilterPairwise(t.restaurants, p, RestaurantsApart);
  }

  lemma AppendHoursValid(t: Tables, row: HoursRow)
    requires Valid(t) && row.id == t.nextHoursId
    ensures Valid(t.(hours := t.hours + [row], nextHoursId := t.nextHoursId + 1))
  {
    var rows := t.hours + [row];
    assert forall i :: 0 <= i < |rows| ==> 1 <= rows[i].id < t.nextHoursId + 1 by {
      forall i | 0 <= i < |rows| ensures 1 <= rows[i].id < t.nextHoursId + 1 {
        if i < |t.hours| { assert rows[i] == t.hours[i]; }
      }
    }
    Seqs.AppendPairwise(t.hours, row, HoursApart);
  }

  lemma FilterHoursValid(t: Tables, p: HoursRow -> bool)
    requires Valid(t)
    ensures Valid(t.(hours := Seqs.Filter(t.hours, p)))
  {
    Seqs.FilterPairwise(t.hours, p, HoursApart);
  }

  lemma AppendReviewValid(t: Tables, row: ReviewRow)
    requires Valid(t) && row.id == t.nextReviewId
    requires forall i :: 0 <= i < |t.reviews| ==>
      t.reviews[i].userId != row.userId || t.reviews[i].restaurantId != row.restaurantId
    ensures Valid(t.(reviews := t.reviews + [row], nextReviewId := t.nextReviewId + 1))
  {
    var rows := t.reviews + [row];
    assert forall i :: 0 <= i < |rows| ==> 1 <= rows[i].id < t.nextReviewId + 1 by {
      forall i | 0 <= i < |rows| ensures 1 <= rows[i].id < t.nextReviewId + 1 {
        if i < |t.reviews| { assert rows[i] == t.reviews[i]; }
      }
    }
    Seqs.AppendPairwise(t.reviews, row, ReviewsApart);
  }

  lemma MapReviewsValid(t: Tables, f: ReviewRow -> ReviewRow)
    requires Valid(t)
    requires forall v :: f(v).id == v.id && f(v).userId == v.userId && f(v).restaurantId == v.restaurantId
    ensures Valid(t.(reviews := Seqs.Map(t.reviews, f)))
  {
    Seqs.MapPairwise(t.reviews, f, ReviewsApart, ReviewsApart);
  }

  lemma FilterReviewsValid(t: Tables, p: ReviewRow -> bool)
    requires Valid(t)
    ensures Valid(t.(reviews := Seqs.Filter(t.reviews, p)))
  {
    Seqs.FilterPairwise(t.reviews, p, ReviewsApart);
  }

  lemma AppendFavoriteValid(t: Tables, row: FavoriteRow)
    requires Valid(t) && row !in t.favorites
    ensures Valid(t.(favorites := t.favorites + [row]))
  {
    Seqs.AppendPairwise(t.favorites, row, FavoritesApart);
  }

  lemma FilterFavoritesValid(t: Tables, p: FavoriteRow -> bool)
    requires Valid(t)
    ensures Valid(t.(favorites := Seqs.Filter(t.favorites, p)))
  {
    Seqs.FilterPairwise(t.favorites, p, FavoritesApart);
  }

  // ---------------------------------------------------------------------
  // Derived rating
  // ---------------------------------------------------------------------

  function RatingSum(reviews: seq<ReviewRow>, restaurantId: int): int {
    if reviews == [] then 0
    else
      (if reviews[0].restaurantId == restaurantId then reviews[0].rating else 0)
      + RatingSum(reviews[1..], restaurantId)
  }

  function ReviewCount(reviews: seq<ReviewRow>, restaurantId: int): (n: nat)
    ensures n == |Seqs.Filter(reviews, (v: ReviewRow) => v.restaurantId == restaurantId)|
  {
    if reviews == [] then 0
    else
      assert reviews == [reviews[0]] + reviews[1..];
      (if reviews[0].restaurantId == restaurantId then 1 else 0) + ReviewCount(reviews[1..], restaurantId)
  }

  /** AVG(rating) over the restaurant's reviews, NULL when it has none. */
  function AvgRating(reviews: seq<ReviewRow>, restaurantId: int): (r: Nullable<real>)
    ensures r.Null? <==> ReviewCount(reviews, restaurantId) == 0
  {
    var n := ReviewCount(reviews, restaurantId);
    if n == 0 then Null else NonNull(RatingSum(reviews, restaurantId) as real / n as real)
  }

  /** COALESCE(AVG(rating), 0): the mean review rating, or 0. */
  function RatingOf(reviews: seq<ReviewRow>, restaurantId: int): (r: real)
    ensures ReviewCount(reviews, restaurantId) == 0 ==> r == 0.0
    ensures ReviewCount(reviews, restaurantId) > 0 ==> NonNull(r) == AvgRating(reviews, restaurantId)
  {
    match AvgRating(reviews, restaurantId)
    case Null => 0.0
    case NonNull(a) => a
  }

  /** Bounds of 1 and 5 on each rating bound the sum by the count. */
  lemma {:induction false} RatingSumBounds(reviews: seq<ReviewRow>, restaurantId: int)
    requires forall i :: 0 <= i < |reviews| ==> 1 <= reviews[i].rating <= 5
    ensures ReviewCount(reviews, restaurantId) <= RatingSum(reviews, restaurantId) <= 5 * ReviewCount(reviews, restaurantId)
  {
    if reviews != [] {
      RatingSumBounds(reviews[1..], restaurantId);
    }
  }

  /** A product of positive reals is positive. */
  lemma PositiveProduct(a: real, b: real)
    requires a > 0.0 && b > 0.0
    ensures a * b > 0.0
  {
  }

  lemma MeanAtMostFive(s: real, n: real)
    requires n > 0.0 && s <= 5.0 * n
    ensures s / n <= 5.0
  {
    var q := s / n;
    assert q * n == s;
    if q > 5.0 {
      PositiveProduct(q - 5.0, n);
      assert false;
    }
  }

  lemma MeanAtLeastOne(s: real, n: real)
    requires n > 0.0 && n <= s
    ensures 1.0 <= s / n
  {
    var q := s / n;
    assert q * n == s;
    if q < 1.0 {
      PositiveProduct(1.0 - q, n);
      assert false;
    }
  }

  /** When every rating is between 1 and 5, so is the mean of a reviewed
      restaurant; an unreviewed one rates 0. */
  lemma RatingInRange(reviews: seq<ReviewRow>, restaurantId: int)
    requires forall i :: 0 <= i < |reviews| ==> 1 <= reviews[i].rating <= 5
    ensures ReviewCount(reviews, restaurantId) > 0 ==> 1.0 <= RatingOf(reviews, restaurantId) <= 5.0
    ensures ReviewCount(reviews, restaurantId) == 0 ==> RatingOf(reviews, restaurantId) == 0.0
  {
    var n := ReviewCount(reviews, restaurantId);
    RatingSumBounds(reviews, restaurantId);
    if n > 0 {
      MeanAtLeastOne(RatingSum(reviews, restaurantId) as real, n as real);
      MeanAtMostFive(RatingSum(reviews, restaurantId) as real, n as real);
    }
  }

  /** A restaurant row with its derived `rating` column,
      COALESCE(AVG(rating), 0) over its reviews. */
  datatype Rated = Rated(row: RestaurantRow, rating: real)

  function WithRating(reviews: seq<ReviewRow>, r: RestaurantRow): Rated {
    Rated(r, RatingOf(reviews, r.id))
  }

  // ---------------------------------------------------------------------
  // The database object
  // ---------------------------------------------------------------------

  /** The process-wide connection: one field per table and per counter. */
  class Database {
    var users: seq<UserRow>
    var restaurants: seq<RestaurantRow>
    var hours: seq<HoursRow>
    var reviews: seq<ReviewRow>
    var favorites: seq<FavoriteRow>
    var nextUserId: int
    var nextRestaurantId: int
    var nextHoursId: int
    var nextReviewId: int

    /** Every table, as one value. */
    function State(): Tables
      reads this
    {
      Tables(users, restaurants, hours, reviews, favorites, nextUserId, nextRestaurantId, nextHoursId, nextReviewId)
    }

    constructor ()
      ensures State() == Empty()
    {
      users, restaurants, hours, reviews, favorites := [], [], [], [], [];
      nextUserId, nextRestaurantId, nextHoursId, nextReviewId := 1, 1, 1, 1;
    }

    /** Puts back a snapshot: what a rolled-back transaction leaves. */
    method Restore(t: Tables)
      modifies this
      ensures State() == t
    {
      users, restaurants, hours, reviews, favorites := t.users, t.restaurants, t.hours, t.reviews, t.favorites;
      nextUserId, nextRestaurantId, nextHoursId, nextReviewId := t.nextUserId, t.nextRestaurantId, t.nextHoursId, t.nextReviewId;
    }
  }
}
