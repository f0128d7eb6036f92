/** The public restaurant queries: the filtered, ordered and paged listing,
    the detail lookup with operating hours, and the existence check. All three
    only read the tables. */
module RestaurantRepository {
  import opened Wrappers
  import opened Tables
  import Seqs
  import Sorting
  import Text
  import RestaurantDto
  import ResponseDto

  // ---------------------------------------------------------------------
  // WHERE
  // ---------------------------------------------------------------------

  /** One condition of the WHERE clause. */
  datatype Cond =
    | CuisineIs(cuisine: string)          // cuisine_type = ?
    | NeighborhoodIs(neighborhood: string) // neighborhood = ?
    | RatingAtLeast(threshold: real)      // COALESCE(avg_rating, 0) >= ?

  /** A NULL column equals no value, so it fails both equality conditions. */
  predicate Holds(c: Cond, x: Rated) {
    match c
    case CuisineIs(v) => x.row.cuisineType == NonNull(v)
    case NeighborhoodIs(v) => x.row.neighborhood == NonNull(v)
    case RatingAtLeast(m) => x.rating >= m
  }

  /** The conditions joined with AND; no conditions is no WHERE clause. */
  predicate HoldsAll(conds: seq<Cond>, x: Rated) {
    forall i :: 0 <= i < |conds| ==> Holds(conds[i], x)
  }

  /** Every restaurant with its derived rating, in rowid order: the LEFT JOIN
      of restaurants with the per-restaurant averages. */
  function AllRated(t: Tables): (r: seq<Rated>)
    ensures |r| == |t.restaurants|
    ensures forall i :: 0 <= i < |r| ==> r[i] == WithRating(t.reviews, t.restaurants[i])
    ensures forall x :: x in r ==> x.row in t.restaurants && x.rating == RatingOf(t.reviews, x.row.id)
  {
    Seqs.Map(t.restaurants, (row: RestaurantRow) => WithRating(t.reviews, row))
  }

  /** The rows the WHERE clause keeps. */
  function Selected(t: Tables, conds: seq<Cond>): seq<Rated> {
    Seqs.Filter(AllRated(t), (x: Rated) => HoldsAll(conds, x))
  }

  // ---------------------------------------------------------------------
  // ORDER BY
  // ---------------------------------------------------------------------

  datatype SortField = ByName | ByRating | ByCuisine | ByNeighborhood

  datatype Direction = Asc | Desc

  datatype Order = Order(field: SortField, dir: Direction)

  /** SQLite puts NULL before every text value in ascending order. */
  predicate NullableLe(a: Nullable<string>, b: Nullable<string>) {
    a.Null? || (b.NonNull? && Text.LexLe(a.value, b.value))
  }

  predicate AscLe(f: SortField, a: Rated, b: Rated) {
    match f
    case ByName => Text.LexLe(a.row.name, b.row.name)
    case ByRating => a.rating <= b.rating
    case ByCuisine => NullableLe(a.row.cuisineType, b.row.cuisineType)
    case ByNeighborhood => NullableLe(a.row.neighborhood, b.row.neighborhood)
  }

  /** `a` may come before `b` under ORDER BY field dir. */
  function LeOf(o: Order): (Rated, Rated) -> bool {
    (a: Rated, b: Rated) => if o.dir == Asc then AscLe(o.field, a, b) else AscLe(o.field, b, a)
  }

  lemma AscLeTotal(f: SortField, a: Rated, b: Rated)
    ensures AscLe(f, a, b) || AscLe(f, b, a)
  {
    match f
    case ByName => Text.LexLeTotal(a.row.name, b.row.name);
    case ByRating =>
    case ByCuisine =>
      if a.row.cuisineType.NonNull? && b.row.cuisineType.NonNull? {
        Text.LexLeTotal(a.row.cuisineType.value, b.row.cuisineType.value);
      }
    case ByNeighborhood =>
      if a.row.neighborhood.NonNull? && b.row.neighborhood.NonNull? {
        Text.LexLeTotal(a.row.neighborhood.value, b.row.neighborhood.value);
      }
  }

  lemma AscLeTransitive(f: SortField, a: Rated, b: Rated, c: Rated)
    requires AscLe(f, a, b) && AscLe(f, b, c)
    ensures AscLe(f, a, c)
  {
    match f
    case ByName => Text.LexLeTransitive(a.row.name, b.row.name, c.row.name);
    case ByRating =>
    case ByCuisine =>
      if a.row.cuisineType.NonNull? {
        Text.LexLeTransitive(a.row.cuisineType.value, b.row.cuisineType.value, c.row.cuisineType.value);
      }
    case ByNeighborhood =>
      if a.row.neighborhood.NonNull? {
        Text.LexLeTransitive(a.row.neighborhood.value, b.row.neighborhood.value, c.row.neighborhood.value);
      }
  }

  /** Every ORDER BY the listing can build is a total preorder, so sorting
      by it is well defined up to the order of ties. */
  lemma LeOfIsTotalPreorder(o: Order)
    ensures Sorting.TotalPreorder(LeOf(o))
  {
    forall a: Rated, b: Rated
      ensures LeOf(o)(a, b) || LeOf(o)(b, a)
    {
      AscLeTotal(o.field, a, b);
    }
    forall a: Rated, b: Rated, c: Rated | LeOf(o)(a, b) && LeOf(o)(b, c)
      ensures LeOf(o)(a, c)
    {
      if o.dir == Asc {
        AscLeTransitive(o.field, a, b, c);
      } else {
        AscLeTransitive(o.field, c, b, a);
      }
    }
  }

  /** The rows in the order the query returns them. Without ORDER BY SQLite
      promises no order; the model keeps rowid order. */
  function Ordered(rows: seq<Rated>, order: Option<Order>): (r: seq<Rated>)
    ensures multiset(r) == multiset(rows) && |r| == |rows|
    ensures order.Some? ==> Sorting.SortedBy(r, LeOf(order.value))
  {
    match order
    case None => rows
    case Some(o) =>
      LeOfIsTotalPreorder(o);
      Sorting.Sort(rows, LeOf(o))
  }

  // ---------------------------------------------------------------------
  // listRestaurants
  // ---------------------------------------------------------------------

  datatype Pagination = Pagination(total: nat, limit: nat, page: real)

  datatype Listing = Listing(data: seq<Rated>, pagination: Pagination)

  /** The WHERE clause after the rating threshold, when given, is appended. */
  function FinalWhere(conds: seq<Cond>, ratingFilter: Option<real>): seq<Cond> {
    if ratingFilter.Some? then conds + [RatingAtLeast(ratingFilter.value)] else conds
  }

  /** listRestaurants: `total` counts every row the filters keep, whatever
      the page; the page holds at most `limit` rows taken from position
      `offset` of the ordered result; each row carries its derived rating;
      and `page` is offset / limit + 1 in JavaScript number division. */
  method ListRestaurants(db: Database, conds: seq<Cond>, order: Option<Order>, limit: nat, offset: nat, ratingFilter: Option<real>)
    returns (r: Listing)
    requires limit >= 1
    ensures r.pagination.total == |Selected(db.State(), FinalWhere(conds, ratingFilter))|
    ensures r.pagination.limit == limit
    ensures r.pagination.page == PageOf(offset, limit)
    ensures r.data == Seqs.Window(Ordered(Selected(db.State(), FinalWhere(conds, ratingFilter)), order), limit, offset)
    ensures |r.data| <= limit
    ensures forall i :: 0 <= i < |r.data| ==>
      var all := Ordered(Selected(db.State(), FinalWhere(conds, ratingFilter)), order);
      offset + i < |all| && r.data[i] == all[offset + i]
    ensures forall x :: x in r.data ==>
      && x.row in db.restaurants
      && x.rating == RatingOf(db.reviews, x.row.id)
      && HoldsAll(conds, x)
      && (ratingFilter.Some? ==> x.rating >= ratingFilter.value)
    ensures order.Some? ==> Sorting.SortedBy(r.data, LeOf(order.value))
  {
    var finalWhere := conds;
    if ratingFilter.Some? {
      finalWhere := finalWhere + [RatingAtLeast(ratingFilter.value)];
    }
    var t := db.State();
    var matching := Selected(t, finalWhere);
    var rows := Seqs.Window(Ordered(matching, order), limit, offset);
    PageRowsSelected(matching, order, limit, offset);
    forall x | x in rows
      ensures HoldsAll(conds, x) && (ratingFilter.Some? ==> x.rating >= ratingFilter.value)
    {
      FinalWhereHolds(conds, ratingFilter, x);
    }
    r := Listing(rows, Pagination(|matching|, limit, PageOf(offset, limit)));
  }

  /** `page: offset / limit + 1`, computed in floating point: a real. */
  function PageOf(offset: nat, limit: nat): real
    requires limit >= 1
  {
    offset as real / limit as real + 1.0
  }

  /** A page holds only rows of the selection, in the selection's order. */
  lemma PageRowsSelected(matching: seq<Rated>, order: Option<Order>, limit: nat, offset: nat)
    ensures forall x :: x in Seqs.Window(Ordered(matching, order), limit, offset) ==> x in matching
    ensures order.Some? ==> Sorting.SortedBy(Seqs.Window(Ordered(matching, order), limit, offset), LeOf(order.value))
  {
    var ordered := Ordered(matching, order);
    var rows := Seqs.Window(ordered, limit, offset);
    forall x | x in rows
      ensures x in matching
    {
      var i :| 0 <= i < |rows| && rows[i] == x;
      assert ordered[offset + i] in multiset(ordered);
    }
  }

  /** A row that passes the final WHERE clause passes the given conditions
      and the rating threshold. */
  lemma FinalWhereHolds(conds: seq<Cond>, ratingFilter: Option<real>, x: Rated)
    requires HoldsAll(FinalWhere(conds, ratingFilter), x)
    ensures HoldsAll(conds, x)
    ensures ratingFilter.Some? ==> x.rating >= ratingFilter.value
  {
    var f := FinalWhere(conds, ratingFilter);
    assert forall i :: 0 <= i < |conds| ==> f[i] == conds[i];
    if ratingFilter.Some? {
      assert Holds(f[|conds|], x);
    }
  }

  /** The service's offset (page - 1) * limit makes the reported page the
      requested one. */
  lemma PageRoundTrip(page: int, limit: nat, offset: nat)
    requires page >= 1 && limit >= 1 && offset == (page - 1) * limit
    ensures PageOf(offset, limit) == page as real
  {
    var p := (page - 1) as real;
    var l := limit as real;
    assert ((page - 1) * limit) as real == p * l;
    assert p * l / l == p;
  }

  /** A restaurant without reviews rates 0, so a rating threshold keeps it
      only when the threshold is 0 or below. */
  lemma UnreviewedPassesOnlyZero(t: Tables, row: RestaurantRow, threshold: real)
    requires ReviewCount(t.reviews, row.id) == 0
    ensures Holds(RatingAtLeast(threshold), WithRating(t.reviews, row)) <==> threshold <= 0.0
  {
  }

  // ---------------------------------------------------------------------
  // findRestaurantById, restaurantExists
  // ---------------------------------------------------------------------

  /** The (day, hours) pairs of a restaurant in hours-row order. */
  function HoursOf(hours: seq<HoursRow>, restaurantId: int): seq<RestaurantDto.HoursEntry> {
    Seqs.Map(Seqs.Filter(hours, (h: HoursRow) => h.restaurantId == restaurantId),
             (h: HoursRow) => RestaurantDto.HoursEntry(h.day, h.hours))
  }

  /** findRestaurantById: nothing for an unknown id; otherwise the row, its
      derived rating and its operating hours. */
  function FindRestaurantById(t: Tables, id: int): (r: Option<ResponseDto.Detail>)
    ensures r.None? <==> forall i :: 0 <= i < |t.restaurants| ==> t.restaurants[i].id != id
    ensures r.Some? ==>
      && r.value.restaurant.row in t.restaurants
      && r.value.restaurant.row.id == id
      && r.value.restaurant.rating == RatingOf(t.reviews, id)
      && r.value.operatingHours == Some(HoursOf(t.hours, id))
  {
    match RestaurantById(t.restaurants, id)
    case None => None
    case Some(row) => Some(ResponseDto.Detail(WithRating(t.reviews, row), Some(HoursOf(t.hours, id))))
  }

  /** The hours rows a detail lists are in ascending id order (ORDER BY id
      ASC), because the table keeps its rows in id order. */
  lemma HoursInIdOrder(t: Tables, id: int)
    requires Valid(t)
    ensures Seqs.Pairwise(Seqs.Filter(t.hours, (h: HoursRow) => h.restaurantId == id), HoursApart)
  {
    Seqs.FilterPairwise(t.hours, (h: HoursRow) => h.restaurantId == id, HoursApart);
  }

  /** restaurantExists */
  function RestaurantExists(t: Tables, id: int): (b: bool)
    ensures b <==> exists i :: 0 <= i < |t.restaurants| && t.restaurants[i].id == id
  {
    RestaurantById(t.restaurants, id).Some?
  }
}
