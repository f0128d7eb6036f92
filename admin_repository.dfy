/** The statistics queries of the admin dashboard: three table counts and
    two top-3 rankings computed over the LEFT JOIN of restaurants with their
    reviews. */
module AdminRepository {
  import opened Wrappers
  import opened Tables
  import Seqs
  import Sorting
  import ResponseDto

  /** How many rows a ranking keeps (LIMIT 3). */
  const TopCount: nat := 3

  // ---------------------------------------------------------------------
  // getTopRated
  // ---------------------------------------------------------------------

  /** One GROUP BY r.id group: AVG over no joined review is NULL. */
  function TopRatedOf(reviews: seq<ReviewRow>, r: RestaurantRow): (x: ResponseDto.TopRated)
    ensures x.id == r.id && x.name == r.name
    ensures x.avgRating.Null? <==> ReviewCount(reviews, r.id) == 0
  {
    ResponseDto.TopRated(r.id, r.name, r.cuisineType, r.neighborhood, AvgRating(reviews, r.id))
  }

  /** ORDER BY avg_rating DESC: higher averages first; SQLite sorts NULL as
      the smallest value, so restaurants without reviews come last. */
  predicate HigherAverage(a: ResponseDto.TopRated, b: ResponseDto.TopRated) {
    b.avgRating.Null? || (a.avgRating.NonNull? && a.avgRating.value >= b.avgRating.value)
  }

  lemma HigherAverageIsTotalPreorder()
    ensures Sorting.TotalPreorder(HigherAverage)
  {
  }

  /** The GROUP BY r.id groups: one per restaurant, in row order. */
  function AllTopRated(t: Tables): (all: seq<ResponseDto.TopRated>)
    ensures |all| == |t.restaurants|
    ensures forall i :: 0 <= i < |all| ==> all[i] == TopRatedOf(t.reviews, t.restaurants[i])
    ensures forall x :: x in all ==> exists row :: row in t.restaurants && x == TopRatedOf(t.reviews, row)
    ensures forall row :: row in t.restaurants ==> TopRatedOf(t.reviews, row) in all
  {
    var all := Seqs.Map(t.restaurants, (r: RestaurantRow) => TopRatedOf(t.reviews, r));
    assert forall i :: 0 <= i < |all| ==> all[i] == TopRatedOf(t.reviews, t.restaurants[i]);
    all
  }

  /** getTopRated: at most three restaurants, by average rating descending,
      each GROUP BY group at most once, so no restaurant twice. The order
      among equal averages is not specified by the query; the model keeps
      row order. */
  function GetTopRated(t: Tables): (r: seq<ResponseDto.TopRated>)
    ensures |r| == if |t.restaurants| < TopCount then |t.restaurants| else TopCount
    ensures Sorting.SortedBy(r, HigherAverage)
    ensures forall x :: x in r ==> exists row :: row in t.restaurants && x == TopRatedOf(t.reviews, row)
    ensures multiset(r) <= multiset(AllTopRated(t))
    ensures Valid(t) ==> forall i, j :: 0 <= i < j < |r| ==> r[i].id != r[j].id
  {
    HigherAverageIsTotalPreorder();
    var all := AllTopRated(t);
    var sorted := Sorting.Sort(all, HigherAverage);
    Sorting.SortKeepsMembers(all, HigherAverage);
    Sorting.TakeSorted(sorted, HigherAverage, TopCount);
    var key := (x: ResponseDto.TopRated) => x.id;
    assert Valid(t) ==> Sorting.DistinctBy(sorted, key) by {
      if Valid(t) {
        assert Seqs.Pairwise(t.restaurants, RestaurantsApart);
        Sorting.SortDistinct(all, HigherAverage, key);
      }
    }
    Sorting.TakeKeeps(sorted, TopCount, key);
    Seqs.Take(sorted, TopCount)
  }

  /** No restaurant left out of the top three has a higher average than one
      that is in it. */
  lemma {:induction false} TopRatedBeatsTheRest(t: Tables, row: RestaurantRow, y: ResponseDto.TopRated)
    requires row in t.restaurants && TopRatedOf(t.reviews, row) !in GetTopRated(t)
    requires y in GetTopRated(t)
    ensures HigherAverage(y, TopRatedOf(t.reviews, row))
  {
    HigherAverageIsTotalPreorder();
    var all := AllTopRated(t);
    var sorted := Sorting.Sort(all, HigherAverage);
    var top := GetTopRated(t);
    assert top == Seqs.Take(sorted, TopCount);
    var x := TopRatedOf(t.reviews, row);
    assert x in multiset(sorted) by {
      assert x in multiset(all);
    }
    var j :| 0 <= j < |sorted| && sorted[j] == x;
    var i :| 0 <= i < |top| && top[i] == y;
    assert j >= |top|;
    Sorting.TakeComesFirst(sorted, HigherAverage, TopCount);
  }

  // ---------------------------------------------------------------------
  // getMostReviewed
  // ---------------------------------------------------------------------

  /** One group: COUNT(rv.id) counts the joined reviews, 0 for none. */
  function MostReviewedOf(reviews: seq<ReviewRow>, r: RestaurantRow): ResponseDto.MostReviewed {
    ResponseDto.MostReviewed(r.id, r.name, r.cuisineType, ReviewCount(reviews, r.id))
  }

  /** ORDER BY reviews DESC */
  predicate MoreReviews(a: ResponseDto.MostReviewed, b: ResponseDto.MostReviewed) {
    a.reviews >= b.reviews
  }

  lemma MoreReviewsIsTotalPreorder()
    ensures Sorting.TotalPreorder(MoreReviews)
  {
  }

  /** The GROUP BY r.id groups: one per restaurant, in row order. */
  function AllMostReviewed(t: Tables): (all: seq<ResponseDto.MostReviewed>)
    ensures |all| == |t.restaurants|
    ensures forall i :: 0 <= i < |all| ==> all[i] == MostReviewedOf(t.reviews, t.restaurants[i])
    ensures forall x :: x in all ==> exists row :: row in t.restaurants && x == MostReviewedOf(t.reviews, row)
    ensures forall row :: row in t.restaurants ==> MostReviewedOf(t.reviews, row) in all
  {
    var all := Seqs.Map(t.restaurants, (r: RestaurantRow) => MostReviewedOf(t.reviews, r));
    assert forall i :: 0 <= i < |all| ==> all[i] == MostReviewedOf(t.reviews, t.restaurants[i]);
    all
  }

  /** getMostReviewed: at most three restaurants, by review count
      descending, no restaurant twice. */
  function GetMostReviewed(t: Tables): (r: seq<ResponseDto.MostReviewed>)
    ensures |r| == if |t.restaurants| < TopCount then |t.restaurants| else TopCount
    ensures Sorting.SortedBy(r, MoreReviews)
    ensures forall x :: x in r ==> exists row :: row in t.restaurants && x == MostReviewedOf(t.reviews, row)
    ensures multiset(r) <= multiset(AllMostReviewed(t))
    ensures Valid(t) ==> forall i, j :: 0 <= i < j < |r| ==> r[i].id != r[j].id
  {
    MoreReviewsIsTotalPreorder();
    var all := AllMostReviewed(t);
    var sorted := Sorting.Sort(all, MoreReviews);
    Sorting.SortKeepsMembers(all, MoreReviews);
    Sorting.TakeSorted(sorted, MoreReviews, TopCount);
    var key := (x: ResponseDto.MostReviewed) => x.id;
    assert Valid(t) ==> Sorting.DistinctBy(sorted, key) by {
      if Valid(t) {
        assert Seqs.Pairwise(t.restaurants, RestaurantsApart);
        Sorting.SortDistinct(all, MoreReviews, key);
      }
    }
    Sorting.TakeKeeps(sorted, TopCount, key);
    Seqs.Take(sorted, TopCount)
  }

  /** No restaurant left out of the top three has more reviews than one that
      is in it. */
  lemma {:induction false} MostReviewedBeatsTheRest(t: Tables, row: RestaurantRow, y: ResponseDto.MostReviewed)
    requires row in t.restaurants && MostReviewedOf(t.reviews, row) !in GetMostReviewed(t)
    requires y in GetMostReviewed(t)
    ensures y.reviews >= ReviewCount(t.reviews, row.id)
  {
    MoreReviewsIsTotalPreorder();
    var all := AllMostReviewed(t);
    var sorted := Sorting.Sort(all, MoreReviews);
    var top := GetMostReviewed(t);
    assert top == Seqs.Take(sorted, TopCount);
    var x := MostReviewedOf(t.reviews, row);
    assert x in multiset(sorted) by {
      assert x in multiset(all);
    }
    var j :| 0 <= j < |sorted| && sorted[j] == x;
    var i :| 0 <= i < |top| && top[i] == y;
    assert j >= |top|;
    Sorting.TakeComesFirst(sorted, MoreReviews, TopCount);
    assert MoreReviews(top[i], sorted[j]);
  }

  // ---------------------------------------------------------------------
  // getStats
  // ---------------------------------------------------------------------

  /** getStats: the three table sizes (countUsers, countRestaurants,
      countReviews) and the two rankings. */
  function GetStats(t: Tables): (r: ResponseDto.AdminStats)
    ensures r.usersCount == |t.users| && r.restaurantsCount == |t.restaurants| && r.reviewsCount == |t.reviews|
    ensures r.topRated == GetTopRated(t) && r.mostReviewed == GetMostReviewed(t)
  {
    ResponseDto.AdminStats(|t.users|, |t.reviews|, |t.restaurants|, GetTopRated(t), GetMostReviewed(t))
  }
}
