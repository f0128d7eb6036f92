/** The favorites table: a set of (user, restaurant) pairs kept as rows. */
module FavoriteRepository {
  import opened Wrappers
  import opened Tables
  import opened AppErrors
  import Seqs
  import Sorting

  /** favoriteExists */
  function FavoriteExists(t: Tables, userId: int, restaurantId: int): (b: bool)
    ensures b <==> FavoriteRow(userId, restaurantId) in t.favorites
  {
    exists i :: 0 <= i < |t.favorites| && t.favorites[i].userId == userId && t.favorites[i].restaurantId == restaurantId
  }

  datatype FavoriteOutcome = Added | Duplicate

  /** insertFavorite: a pair already present is reported as "DUPLICATE" with
      nothing inserted; otherwise exactly one row is added and "OK" returned.
      A storage error of the INSERT (a restaurant id the foreign key refuses)
      propagates. */
  method InsertFavorite(db: Database, userId: int, restaurantId: int, storageFault: bool)
    returns (r: Result<FavoriteOutcome, Failure>)
    modifies db
    requires Valid(db.State())
    ensures Valid(db.State())
    ensures FavoriteExists(old(db.State()), userId, restaurantId) ==>
      r == Ok(Duplicate) && db.State() == old(db.State())
    ensures !FavoriteExists(old(db.State()), userId, restaurantId) && storageFault ==>
      r == Err(OtherFailure) && db.State() == old(db.State())
    ensures !FavoriteExists(old(db.State()), userId, restaurantId) && !storageFault ==>
      && r == Ok(Added)
      && db.State() == old(db.State()).(favorites := old(db.favorites) + [FavoriteRow(userId, restaurantId)])
  {
    if FavoriteExists(db.State(), userId, restaurantId) {
      return Ok(Duplicate);
    }
    if storageFault {
      return Err(OtherFailure);
    }
    AppendFavoriteValid(db.State(), FavoriteRow(userId, restaurantId));
    db.favorites := db.favorites + [FavoriteRow(userId, restaurantId)];
    r := Ok(Added);
  }

  function IsNot(row: FavoriteRow): FavoriteRow -> bool {
    (f: FavoriteRow) => f != row
  }

  /** deleteFavorite: afterwards the pair is absent and every other pair is
      still there; when the pair was absent nothing changes. */
  method DeleteFavorite(db: Database, userId: int, restaurantId: int)
    modifies db
    requires Valid(db.State())
    ensures Valid(db.State())
    ensures db.State() == old(db.State()).(favorites := Seqs.Filter(old(db.favorites), IsNot(FavoriteRow(userId, restaurantId))))
    ensures !FavoriteExists(db.State(), userId, restaurantId)
    ensures forall f :: f in db.favorites <==> f in old(db.favorites) && f != FavoriteRow(userId, restaurantId)
    ensures !FavoriteExists(old(db.State()), userId, restaurantId) ==> db.State() == old(db.State())
  {
    var row := FavoriteRow(userId, restaurantId);
    if row !in db.favorites {
      AbsentPairDeletesNothing(db.favorites, row);
    }
    FilterFavoritesValid(db.State(), IsNot(row));
    db.favorites := Seqs.Filter(db.favorites, IsNot(row));
  }

  /** Deleting a pair that is not there is a no-op. */
  lemma AbsentPairDeletesNothing(favorites: seq<FavoriteRow>, row: FavoriteRow)
    requires row !in favorites
    ensures Seqs.Filter(favorites, IsNot(row)) == favorites
  {
    Seqs.FilterAll(favorites, IsNot(row));
  }

  /** The restaurant a favorite names, and the restaurant a joined row is. */
  function RestaurantOf(f: FavoriteRow): int {
    f.restaurantId
  }

  function RatedId(x: Rated): int {
    x.row.id
  }

  /** The JOIN of favorites with restaurants: each favorite whose restaurant
      exists gives that restaurant with its derived rating, and favorites of
      distinct restaurants give distinct rows. */
  function JoinRestaurants(favorites: seq<FavoriteRow>, t: Tables): (r: seq<Rated>)
    ensures |r| <= |favorites|
    ensures forall x :: x in r ==>
      && x.row in t.restaurants
      && x.rating == RatingOf(t.reviews, x.row.id)
      && exists f :: f in favorites && f.restaurantId == x.row.id
    ensures forall f, row :: f in favorites && RestaurantById(t.restaurants, f.restaurantId) == Some(row) ==>
      WithRating(t.reviews, row) in r
  {
    if favorites == [] then []
    else
      var rest := JoinRestaurants(favorites[1..], t);
      assert forall f :: f in favorites[1..] ==> f in favorites;
      match RestaurantById(t.restaurants, favorites[0].restaurantId)
      case None => rest
      case Some(row) => [WithRating(t.reviews, row)] + rest
  }

  /** Favorites of distinct restaurants join to distinct rows. */
  lemma {:induction false} JoinDistinct(favorites: seq<FavoriteRow>, t: Tables)
    requires Sorting.DistinctBy(favorites, RestaurantOf)
    ensures Sorting.DistinctBy(JoinRestaurants(favorites, t), RatedId)
  {
    if favorites != [] {
      Sorting.TailDistinct(favorites, RestaurantOf);
      JoinDistinct(favorites[1..], t);
      var rest := JoinRestaurants(favorites[1..], t);
      match RestaurantById(t.restaurants, favorites[0].restaurantId)
      case None =>
      case Some(row) =>
        forall y | y in rest ensures RatedId(WithRating(t.reviews, row)) != RatedId(y) {
          var f :| f in favorites[1..] && f.restaurantId == y.row.id;
          assert RestaurantOf(f) != RestaurantOf(favorites[0]);
        }
        Sorting.ConsDistinct(WithRating(t.reviews, row), rest, RatedId);
    }
  }

  /** listFavoritesByUser: one restaurant, with its rating defaulted to 0,
      per favorite of that user whose restaurant exists, each once; no other
      user's favorites. */
  function ListFavoritesByUser(t: Tables, userId: int): (r: seq<Rated>)
    ensures forall x :: x in r ==>
      && x.row in t.restaurants
      && x.rating == RatingOf(t.reviews, x.row.id)
      && FavoriteRow(userId, x.row.id) in t.favorites
    ensures forall row ::
      (row in t.restaurants && FavoriteRow(userId, row.id) in t.favorites && RestaurantById(t.restaurants, row.id) == Some(row))
      ==> WithRating(t.reviews, row) in r
    ensures Valid(t) ==> forall i, j :: 0 <= i < j < |r| ==> r[i].row.id != r[j].row.id
  {
    var mine := (f: FavoriteRow) => f.userId == userId;
    var own := Seqs.Filter(t.favorites, mine);
    assert Valid(t) ==> Sorting.DistinctBy(own, RestaurantOf) by {
      if Valid(t) {
        Seqs.FilterPairwise(t.favorites, mine, FavoritesApart);
        forall i, j | 0 <= i < j < |own| ensures RestaurantOf(own[i]) != RestaurantOf(own[j]) {
          assert FavoritesApart(own[i], own[j]);
          assert own[i].userId == userId && own[j].userId == userId;
        }
      }
    }
    var r := JoinRestaurants(own, t);
    assert Valid(t) ==> Sorting.DistinctBy(r, RatedId) by {
      if Valid(t) {
        JoinDistinct(own, t);
      }
    }
    assert forall x :: x in r ==> FavoriteRow(userId, x.row.id) in t.favorites by {
      forall x | x in r ensures FavoriteRow(userId, x.row.id) in t.favorites {
        var f :| f in own && f.restaurantId == x.row.id;
        assert f == FavoriteRow(userId, x.row.id);
      }
    }
    assert forall row :: row in t.restaurants && FavoriteRow(userId, row.id) in t.favorites ==>
      FavoriteRow(userId, row.id) in own;
    r
  }

  function OfOtherRestaurant(restaurantId: int): FavoriteRow -> bool {
    (f: FavoriteRow) => f.restaurantId != restaurantId
  }

  /** deleteForRestaurant: every user's favorite of that restaurant goes,
      every other favorite stays. */
  method DeleteForRestaurant(db: Database, restaurantId: int)
    modifies db
    requires Valid(db.State())
    ensures Valid(db.State())
    ensures db.State() == old(db.State()).(favorites := Seqs.Filter(old(db.favorites), OfOtherRestaurant(restaurantId)))
    ensures forall f :: f in db.favorites <==> f in old(db.favorites) && f.restaurantId != restaurantId
  {
    FilterFavoritesValid(db.State(), OfOtherRestaurant(restaurantId));
    db.favorites := Seqs.Filter(db.favorites, OfOtherRestaurant(restaurantId));
  }
}
