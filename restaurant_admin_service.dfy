/** The admin restaurant service: create, update and delete, each run as one
    transaction. A statement that throws inside a transaction rolls back
    every earlier statement of it; the parameter `fault` names the
    statement that throws (counted from 0 in the order the transaction runs
    them), standing for whatever storage error the driver would raise. */
module RestaurantAdminService {
  import opened Wrappers
  import opened Tables
  import opened AppErrors
  import Seqs
  import RestaurantDto
  import RestaurantRepository
  import RestaurantAdminRepository
  import OperatingHoursRepository
  import ReviewRepository
  import FavoriteRepository

  const RestaurantNotFound := Raise("Restaurant not found", 404, "RESTAURANT_NOT_FOUND")

  /** Statement `fault` is one of the `n` statements numbered from `first`. */
  predicate FaultAmong(fault: Option<nat>, first: nat, n: nat) {
    fault.Some? && first <= fault.value < first + n
  }

  /** `if (hours && hours.length > 0)`: the entries the loop inserts. */
  function HoursToInsert(hours: Option<seq<RestaurantDto.HoursEntry>>): (r: seq<RestaurantDto.HoursEntry>)
    ensures hours.None? ==> r == []
    ensures hours.Some? ==> r == hours.value
  {
    if hours.Some? && |hours.value| > 0 then hours.value else []
  }

  /** The rows one insertHours per entry appends, in entry order, under
      consecutive ids from `firstId`. */
  function HoursRows(firstId: int, restaurantId: int, entries: seq<RestaurantDto.HoursEntry>): (r: seq<HoursRow>)
    ensures |r| == |entries|
    ensures forall k :: 0 <= k < |r| ==>
      r[k] == HoursRow(firstId + k, restaurantId, entries[k].day, entries[k].hours)
  {
    if entries == [] then []
    else
      var last := entries[|entries| - 1];
      HoursRows(firstId, restaurantId, entries[..|entries| - 1])
        + [HoursRow(firstId + |entries| - 1, restaurantId, last.day, last.hours)]
  }

  /** The hours table after those inserts. */
  function WithHours(t: Tables, restaurantId: int, entries: seq<RestaurantDto.HoursEntry>): Tables {
    t.(hours := t.hours + HoursRows(t.nextHoursId, restaurantId, entries),
       nextHoursId := t.nextHoursId + |entries|)
  }

  /** The `for (const h of hours)` loop: one insertHours per entry, in order.
      Its k-th insert is statement `first + k` of the transaction. It stops
      at the statement that throws, leaving the earlier inserts for the
      caller to roll back. */
  method InsertEach(db: Database, restaurantId: int, entries: seq<RestaurantDto.HoursEntry>, first: nat, fault: Option<nat>)
    returns (ok: bool)
    modifies db
    requires Valid(db.State())
    ensures Valid(db.State())
    ensures ok <==> !FaultAmong(fault, first, |entries|)
    ensures ok ==> db.State() == WithHours(old(db.State()), restaurantId, entries)
  {
    var k := 0;
    while k < |entries|
      invariant 0 <= k <= |entries|
      invariant Valid(db.State())
      invariant !FaultAmong(fault, first, k)
      invariant db.State() == WithHours(old(db.State()), restaurantId, entries[..k])
    {
      if fault == Some(first + k) {
        return false;
      }
      OperatingHoursRepository.InsertHours(db, restaurantId, entries[k].day, entries[k].hours);
      assert entries[..k + 1][..k] == entries[..k];
      k := k + 1;
    }
    assert entries[..k] == entries;
    return true;
  }

  // ---------------------------------------------------------------------
  // createRestaurant
  // ---------------------------------------------------------------------

  /** The row insertRestaurant writes for a create body: every absent
      optional column is NULL. */
  function NewRow(id: int, d: RestaurantDto.RestaurantInput): RestaurantRow
    requires d.name.Some?
  {
    RestaurantRow(id, d.name.value, d.neighborhood.OrNull(), d.cuisineType.OrNull(), d.address.OrNull(),
      d.photograph.OrNull(), OptionOrNull(d.lat), OptionOrNull(d.lng), d.image.OrNull())
  }

  /** The database after a committed create. */
  function Created(t: Tables, d: RestaurantDto.RestaurantInput): Tables
    requires d.name.Some?
  {
    var id := t.nextRestaurantId;
    WithHours(t.(restaurants := t.restaurants + [NewRow(id, d)], nextRestaurantId := id + 1),
      id, HoursToInsert(d.hours))
  }

  /** createRestaurant: the insert and one hours insert per entry commit
      together and the new id is returned; a statement that throws leaves
      the database as it was and fails the request. */
  method CreateRestaurant(db: Database, data: RestaurantDto.RestaurantInput, fault: Option<nat>)
    returns (r: Result<int, Failure>)
    modifies db
    requires Valid(db.State())
    requires data.name.Some?
    ensures Valid(db.State())
    ensures r.Err? <==> FaultAmong(fault, 0, 1 + |HoursToInsert(data.hours)|)
    ensures r.Err? ==> r.error == OtherFailure && db.State() == old(db.State())
    ensures r.Ok? ==> r.value == old(db.nextRestaurantId) && db.State() == Created(old(db.State()), data)
  {
    var snapshot := db.State();
    if fault == Some(0) {
      return Err(OtherFailure);
    }
    var id := RestaurantAdminRepository.InsertRestaurant(db, data.name.value, data.neighborhood.OrNull(),
      data.cuisineType.OrNull(), data.address.OrNull(), data.photograph.OrNull(), OptionOrNull(data.lat),
      OptionOrNull(data.lng), data.image.OrNull());
    var ok := InsertEach(db, id, HoursToInsert(data.hours), 1, fault);
    if !ok {
      db.Restore(snapshot);
      return Err(OtherFailure);
    }
    r := Ok(id);
  }

  /** The hours a restaurant lists after it is created are exactly the
      entries sent, in order, provided no hours row already points at the
      new id (the foreign key on operating_hours sees to that). */
  lemma {:induction false} CreatedListsItsHours(t: Tables, d: RestaurantDto.RestaurantInput)
    requires Valid(t) && d.name.Some?
    requires forall i :: 0 <= i < |t.hours| ==> t.hours[i].restaurantId != t.nextRestaurantId
    ensures RestaurantById(Created(t, d).restaurants, t.nextRestaurantId) == Some(NewRow(t.nextRestaurantId, d))
    ensures RestaurantRepository.HoursOf(Created(t, d).hours, t.nextRestaurantId) == HoursToInsert(d.hours)
  {
    var id := t.nextRestaurantId;
    FirstMatchIsLast(t.restaurants, NewRow(id, d));
    NoHoursOf(t.hours, id);
    OwnHours(t.nextHoursId, id, HoursToInsert(d.hours));
    Seqs.FilterAppend(t.hours, HoursRows(t.nextHoursId, id, HoursToInsert(d.hours)), (h: HoursRow) => h.restaurantId == id);
  }

  /** A row appended under an id no earlier row has is the one found. */
  lemma {:induction false} FirstMatchIsLast(rows: seq<RestaurantRow>, row: RestaurantRow)
    requires forall i :: 0 <= i < |rows| ==> rows[i].id != row.id
    ensures RestaurantById(rows + [row], row.id) == Some(row)
  {
    if rows != [] {
      assert (rows + [row])[1..] == rows[1..] + [row];
      FirstMatchIsLast(rows[1..], row);
    }
  }

  /** Rows of other restaurants contribute no entries. */
  lemma NoHoursOf(hours: seq<HoursRow>, id: int)
    requires forall i :: 0 <= i < |hours| ==> hours[i].restaurantId != id
    ensures RestaurantRepository.HoursOf(hours, id) == []
  {
    assert Seqs.Filter(hours, (h: HoursRow) => h.restaurantId == id) == [] by {
      NoneKept(hours, (h: HoursRow) => h.restaurantId == id);
    }
  }

  lemma {:induction false} NoneKept(hours: seq<HoursRow>, p: HoursRow -> bool)
    requires forall i :: 0 <= i < |hours| ==> !p(hours[i])
    ensures Seqs.Filter(hours, p) == []
  {
    if hours != [] {
      NoneKept(hours[1..], p);
    }
  }

  /** The inserted rows, listed for their restaurant, give back the
      entries. */
  lemma OwnHours(firstId: int, id: int, entries: seq<RestaurantDto.HoursEntry>)
    ensures RestaurantRepository.HoursOf(HoursRows(firstId, id, entries), id) == entries
  {
    var rows := HoursRows(firstId, id, entries);
    Seqs.FilterAll(rows, (h: HoursRow) => h.restaurantId == id);
    var listed := RestaurantRepository.HoursOf(rows, id);
    assert forall k :: 0 <= k < |entries| ==> listed[k] == entries[k];
  }

  // ---------------------------------------------------------------------
  // updateRestaurant
  // ---------------------------------------------------------------------

  /** The update arguments of a body: an absent optional number is
      undefined. */
  function PatchOf(d: RestaurantDto.RestaurantInput): RestaurantAdminRepository.RestaurantPatch {
    RestaurantAdminRepository.RestaurantPatch(
      d.name, d.neighborhood, d.cuisineType, d.address, d.photograph,
      if d.lat.Some? then Given(d.lat.value) else Undefined,
      if d.lng.Some? then Given(d.lng.value) else Undefined,
      d.image)
  }

  /** The database after a committed update: the row revised, every hours
      row of the restaurant dropped and the entries sent inserted. */
  function Updated(t: Tables, id: int, d: RestaurantDto.RestaurantInput): Tables {
    var revised := t.(restaurants := Seqs.Map(t.restaurants, RestaurantAdminRepository.Revision(id, PatchOf(d))));
    WithHours(revised.(hours := Seqs.Filter(t.hours, OperatingHoursRepository.OfOtherRestaurant(id))),
      id, HoursToInsert(d.hours))
  }

  /** updateRestaurant: 404 for an unknown id; otherwise the column update,
      the deletion of all the restaurant's hours and one insert per entry
      sent commit together; a statement that throws leaves the database as
      it was and fails the request. */
  method UpdateRestaurant(db: Database, id: int, data: RestaurantDto.RestaurantInput, fault: Option<nat>)
    returns (r: Result<int, Failure>)
    modifies db
    requires Valid(db.State())
    ensures Valid(db.State())
    ensures !RestaurantRepository.RestaurantExists(old(db.State()), id) ==>
      r == Err(RestaurantNotFound) && db.State() == old(db.State())
    ensures RestaurantRepository.RestaurantExists(old(db.State()), id) ==>
      (r.Err? <==> FaultAmong(fault, 0, 2 + |HoursToInsert(data.hours)|))
    ensures RestaurantRepository.RestaurantExists(old(db.State()), id) && r.Err? ==>
      r.error == OtherFailure && db.State() == old(db.State())
    ensures r.Ok? ==> r.value == id && db.State() == Updated(old(db.State()), id, data)
  {
    if !RestaurantRepository.RestaurantExists(db.State(), id) {
      return Err(RestaurantNotFound);
    }
    var snapshot := db.State();
    if fault == Some(0) {
      return Err(OtherFailure);
    }
    RestaurantAdminRepository.UpdateRestaurant(db, id, PatchOf(data));
    if fault == Some(1) {
      db.Restore(snapshot);
      return Err(OtherFailure);
    }
    OperatingHoursRepository.DeleteForRestaurant(db, id);
    var ok := InsertEach(db, id, HoursToInsert(data.hours), 2, fault);
    if !ok {
      db.Restore(snapshot);
      return Err(OtherFailure);
    }
    r := Ok(id);
  }

  /** After an update the restaurant lists exactly the hours sent: an update
      without `hours` (or with an empty list) leaves it with none. The hours
      of every other restaurant are untouched. */
  lemma UpdateReplacesHours(t: Tables, id: int, d: RestaurantDto.RestaurantInput)
    ensures RestaurantRepository.HoursOf(Updated(t, id, d).hours, id) == HoursToInsert(d.hours)
    ensures d.hours.None? ==> RestaurantRepository.HoursOf(Updated(t, id, d).hours, id) == []
    ensures forall other :: other != id ==>
      RestaurantRepository.HoursOf(Updated(t, id, d).hours, other) == RestaurantRepository.HoursOf(t.hours, other)
  {
    var kept := Seqs.Filter(t.hours, OperatingHoursRepository.OfOtherRestaurant(id));
    var added := HoursRows(t.nextHoursId, id, HoursToInsert(d.hours));
    assert Updated(t, id, d).hours == kept + added;
    KeptHoursAreOthers(t.hours, id);
    NoHoursOf(kept, id);
    OwnHours(t.nextHoursId, id, HoursToInsert(d.hours));
    HoursOfAppend(kept, added, id);
    forall other | other != id
      ensures RestaurantRepository.HoursOf(kept + added, other) == RestaurantRepository.HoursOf(t.hours, other)
    {
      OtherHoursKept(t.hours, added, id, other);
    }
  }

  /** Listing a restaurant's hours distributes over appended rows. */
  lemma HoursOfAppend(a: seq<HoursRow>, b: seq<HoursRow>, id: int)
    ensures RestaurantRepository.HoursOf(a + b, id) == RestaurantRepository.HoursOf(a, id) + RestaurantRepository.HoursOf(b, id)
  {
    var p := (h: HoursRow) => h.restaurantId == id;
    Seqs.FilterAppend(a, b, p);
    var fa, fb := Seqs.Filter(a, p), Seqs.Filter(b, p);
    var lhs := RestaurantRepository.HoursOf(a + b, id);
    var rhs := RestaurantRepository.HoursOf(a, id) + RestaurantRepository.HoursOf(b, id);
    assert |lhs| == |rhs|;
    forall k | 0 <= k < |lhs| ensures lhs[k] == rhs[k] {
      if k < |fa| {
        assert (fa + fb)[k] == fa[k];
      } else {
        assert (fa + fb)[k] == fb[k - |fa|];
      }
    }
  }

  /** Another restaurant's hours survive the delete of `id` and gain
      nothing from the rows inserted for `id`. */
  lemma OtherHoursKept(hours: seq<HoursRow>, added: seq<HoursRow>, id: int, other: int)
    requires other != id
    requires forall i :: 0 <= i < |added| ==> added[i].restaurantId == id
    ensures RestaurantRepository.HoursOf(Seqs.Filter(hours, OperatingHoursRepository.OfOtherRestaurant(id)) + added, other)
      == RestaurantRepository.HoursOf(hours, other)
  {
    var kept := Seqs.Filter(hours, OperatingHoursRepository.OfOtherRestaurant(id));
    HoursOfAppend(kept, added, other);
    NoHoursOf(added, other);
    FilterTwice(hours, id, other);
  }

  /** Every row the hours delete keeps belongs to another restaurant. */
  lemma KeptHoursAreOthers(hours: seq<HoursRow>, id: int)
    ensures forall i :: 0 <= i < |Seqs.Filter(hours, OperatingHoursRepository.OfOtherRestaurant(id))| ==>
      Seqs.Filter(hours, OperatingHoursRepository.OfOtherRestaurant(id))[i].restaurantId != id
  {
    var kept := Seqs.Filter(hours, OperatingHoursRepository.OfOtherRestaurant(id));
    forall i | 0 <= i < |kept| ensures kept[i].restaurantId != id {
      assert kept[i] in kept;
    }
  }

  /** Selecting restaurant `other` from the rows kept by the delete of `id`
      selects what it selected before. */
  lemma {:induction false} FilterTwice(hours: seq<HoursRow>, id: int, other: int)
    requires other != id
    ensures Seqs.Filter(Seqs.Filter(hours, OperatingHoursRepository.OfOtherRestaurant(id)), (h: HoursRow) => h.restaurantId == other)
      == Seqs.Filter(hours, (h: HoursRow) => h.restaurantId == other)
  {
    if hours != [] {
      FilterTwice(hours[1..], id, other);
    }
  }

  /** The update revises the addressed row as the body says and leaves every
      other restaurant row as it was. */
  lemma UpdateRevisesOnlyItsRow(t: Tables, id: int, d: RestaurantDto.RestaurantInput)
    ensures |Updated(t, id, d).restaurants| == |t.restaurants|
    ensures forall i :: 0 <= i < |t.restaurants| && t.restaurants[i].id != id ==>
      Updated(t, id, d).restaurants[i] == t.restaurants[i]
    ensures forall i :: 0 <= i < |t.restaurants| && t.restaurants[i].id == id ==>
      var v := Updated(t, id, d).restaurants[i];
      && v.name == (if d.name.Some? then d.name.value else t.restaurants[i].name)
      && v.neighborhood == RestaurantAdminRepository.Keep(t.restaurants[i].neighborhood, d.neighborhood)
      && (d.lat.Some? ==> v.lat == NonNull(d.lat.value))
      && (d.lat.None? ==> v.lat == t.restaurants[i].lat)
  {
  }

  // ---------------------------------------------------------------------
  // deleteRestaurant
  // ---------------------------------------------------------------------

  /** The database after a committed delete: the restaurant's reviews,
      favorites and hours, then the restaurant itself. */
  function Deleted(t: Tables, id: int): Tables {
    t.(reviews := Seqs.Filter(t.reviews, ReviewRepository.OfOtherRestaurant(id)),
       favorites := Seqs.Filter(t.favorites, FavoriteRepository.OfOtherRestaurant(id)),
       hours := Seqs.Filter(t.hours, OperatingHoursRepository.OfOtherRestaurant(id)),
       restaurants := Seqs.Filter(t.restaurants, RestaurantAdminRepository.IdIsNot(id)))
  }

  /** deleteRestaurant: 404 for an unknown id; otherwise the four deletes
      commit together; a statement that throws leaves the database as it
      was and fails the request. */
  method DeleteRestaurant(db: Database, id: int, fault: Option<nat>)
    returns (r: Result<int, Failure>)
    modifies db
    requires Valid(db.State())
    ensures Valid(db.State())
    ensures !RestaurantRepository.RestaurantExists(old(db.State()), id) ==>
      r == Err(RestaurantNotFound) && db.State() == old(db.State())
    ensures RestaurantRepository.RestaurantExists(old(db.State()), id) ==>
      (r.Err? <==> FaultAmong(fault, 0, 4))
    ensures RestaurantRepository.RestaurantExists(old(db.State()), id) && r.Err? ==>
      r.error == OtherFailure && db.State() == old(db.State())
    ensures r.Ok? ==> r.value == id && db.State() == Deleted(old(db.State()), id)
  {
    if !RestaurantRepository.RestaurantExists(db.State(), id) {
      return Err(RestaurantNotFound);
    }
    var snapshot := db.State();
    var stop := if FaultAmong(fault, 0, 4) then fault.value else 4;
    DeleteStatements(db, id, stop);
    if stop < 4 {
      db.Restore(snapshot);
      return Err(OtherFailure);
    }
    r := Ok(id);
  }

  /** The first `count` statements of the delete transaction. */
  method DeleteStatements(db: Database, id: int, count: nat)
    modifies db
    requires Valid(db.State())
    ensures Valid(db.State())
    ensures count >= 4 ==> db.State() == Deleted(old(db.State()), id)
  {
    if count == 0 {
      return;
    }
    ReviewRepository.DeleteForRestaurant(db, id);
    if count == 1 {
      return;
    }
    FavoriteRepository.DeleteForRestaurant(db, id);
    if count == 2 {
      return;
    }
    OperatingHoursRepository.DeleteForRestaurant(db, id);
    if count == 3 {
      return;
    }
    RestaurantAdminRepository.DeleteRestaurant(db, id);
  }

  /** After a delete nothing refers to the restaurant any more, and every
      row that did not refer to it is still there. */
  lemma DeletedLeavesNoTrace(t: Tables, id: int)
    ensures !RestaurantRepository.RestaurantExists(Deleted(t, id), id)
    ensures forall v :: v in Deleted(t, id).reviews <==> v in t.reviews && v.restaurantId != id
    ensures forall f :: f in Deleted(t, id).favorites <==> f in t.favorites && f.restaurantId != id
    ensures forall h :: h in Deleted(t, id).hours <==> h in t.hours && h.restaurantId != id
    ensures forall v :: v in Deleted(t, id).restaurants <==> v in t.restaurants && v.id != id
    ensures Deleted(t, id).users == t.users
  {
    var rows := Deleted(t, id).restaurants;
    assert forall i :: 0 <= i < |rows| ==> rows[i] in rows;
  }
}
