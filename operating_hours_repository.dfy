/** The operating_hours table: one (day, hours) row per entry, replaced as a
    whole whenever a restaurant is written. */
module OperatingHoursRepository {
  import opened Tables
  import Seqs
  import RestaurantDto
  import RestaurantRepository

  /** insertHours: appends one row under the next id. */
  method InsertHours(db: Database, restaurantId: int, day: string, hours: string)
    modifies db
    requires Valid(db.State())
    ensures Valid(db.State())
    ensures db.State() == old(db.State()).(
      hours := old(db.hours) + [HoursRow(old(db.nextHoursId), restaurantId, day, hours)],
      nextHoursId := old(db.nextHoursId) + 1)
  {
    var row := HoursRow(db.nextHoursId, restaurantId, day, hours);
    AppendHoursValid(db.State(), row);
    db.hours := db.hours + [row];
    db.nextHoursId := db.nextHoursId + 1;
  }

  function OfOtherRestaurant(restaurantId: int): HoursRow -> bool {
    (h: HoursRow) => h.restaurantId != restaurantId
  }

  /** deleteForRestaurant: what remains is exactly the rows of the other
      restaurants, in their order. */
  method DeleteForRestaurant(db: Database, restaurantId: int)
    modifies db
    requires Valid(db.State())
    ensures Valid(db.State())
    ensures db.State() == old(db.State()).(hours := Seqs.Filter(old(db.hours), OfOtherRestaurant(restaurantId)))
    ensures forall h :: h in db.hours <==> h in old(db.hours) && h.restaurantId != restaurantId
  {
    FilterHoursValid(db.State(), OfOtherRestaurant(restaurantId));
    db.hours := Seqs.Filter(db.hours, OfOtherRestaurant(restaurantId));
  }

  /** listByRestaurant: the (day, hours) pairs of that restaurant and no
      other; the query has no ORDER BY, and the model returns them in row
      order. */
  function ListByRestaurant(t: Tables, restaurantId: int): (r: seq<RestaurantDto.HoursEntry>)
    ensures r == RestaurantRepository.HoursOf(t.hours, restaurantId)
    ensures |r| == |Seqs.Filter(t.hours, (h: HoursRow) => h.restaurantId == restaurantId)|
    ensures forall e :: e in r <==>
      exists h :: h in t.hours && h.restaurantId == restaurantId && e == RestaurantDto.HoursEntry(h.day, h.hours)
  {
    var own := Seqs.Filter(t.hours, (h: HoursRow) => h.restaurantId == restaurantId);
    var r := RestaurantRepository.HoursOf(t.hours, restaurantId);
    assert forall i :: 0 <= i < |r| ==> r[i] == RestaurantDto.HoursEntry(own[i].day, own[i].hours);
    assert forall h :: h in own ==> RestaurantDto.HoursEntry(h.day, h.hours) in r by {
      forall h | h in own ensures RestaurantDto.HoursEntry(h.day, h.hours) in r {
        var i :| 0 <= i < |own| && own[i] == h;
        assert r[i] == RestaurantDto.HoursEntry(h.day, h.hours);
      }
    }
    r
  }
}
