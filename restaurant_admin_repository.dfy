/** The restaurant writes: insert returning the new id, the set-if-present
    update and the delete by id. */
module RestaurantAdminRepository {
  import opened Wrappers
  import opened Tables
  import Seqs

  /** insertRestaurant: appends one row under the next id and returns it
      (lastInsertRowid). */
  method InsertRestaurant(
    db: Database, name: string, neighborhood: Nullable<string>, cuisineType: Nullable<string>,
    address: Nullable<string>, photograph: Nullable<string>, lat: Nullable<real>, lng: Nullable<real>,
    image: Nullable<string>)
    returns (id: int)
    modifies db
    requires Valid(db.State())
    ensures Valid(db.State())
    ensures id == old(db.nextRestaurantId) && id >= 1
    ensures forall i :: 0 <= i < |old(db.restaurants)| ==> old(db.restaurants)[i].id != id
    ensures db.State() == old(db.State()).(
      restaurants := old(db.restaurants)
        + [RestaurantRow(id, name, neighborhood, cuisineType, address, photograph, lat, lng, image)],
      nextRestaurantId := id + 1)
  {
    id := db.nextRestaurantId;
    var row := RestaurantRow(id, name, neighborhood, cuisineType, address, photograph, lat, lng, image);
    AppendRestaurantValid(db.State(), row);
    db.restaurants := db.restaurants + [row];
    db.nextRestaurantId := id + 1;
  }

  // ---------------------------------------------------------------------
  // updateRestaurant
  // ---------------------------------------------------------------------

  /** The arguments of updateRestaurant after the id: undefined leaves a
      column alone, null clears it. The name column is never null. */
  datatype RestaurantPatch = RestaurantPatch(
    name: Option<string>,
    neighborhood: Maybe<string>,
    cuisineType: Maybe<string>,
    address: Maybe<string>,
    photograph: Maybe<string>,
    lat: Maybe<real>,
    lng: Maybe<real>,
    image: Maybe<string>)

  /** One `column = ?` of the SET list. */
  datatype Assignment =
    | SetName(name: string)
    | SetNeighborhood(neighborhood: Nullable<string>)
    | SetCuisineType(cuisineType: Nullable<string>)
    | SetAddress(address: Nullable<string>)
    | SetPhotograph(photograph: Nullable<string>)
    | SetLat(lat: Nullable<real>)
    | SetLng(lng: Nullable<real>)
    | SetImage(image: Nullable<string>)

  function Apply(v: RestaurantRow, a: Assignment): RestaurantRow {
    match a
    case SetName(x) => v.(name := x)
    case SetNeighborhood(x) => v.(neighborhood := x)
    case SetCuisineType(x) => v.(cuisineType := x)
    case SetAddress(x) => v.(address := x)
    case SetPhotograph(x) => v.(photograph := x)
    case SetLat(x) => v.(lat := x)
    case SetLng(x) => v.(lng := x)
    case SetImage(x) => v.(image := x)
  }

  /** The SET list applied left to right; no assignment changes the id. */
  function ApplyAll(v: RestaurantRow, sets: seq<Assignment>): (r: RestaurantRow)
    ensures r.id == v.id
    decreases |sets|
  {
    if sets == [] then v
    else
      var last := |sets| - 1;
      Apply(ApplyAll(v, sets[..last]), sets[last])
  }

  lemma ApplyPush(v: RestaurantRow, sets: seq<Assignment>, a: Assignment)
    ensures ApplyAll(v, sets + [a]) == Apply(ApplyAll(v, sets), a)
  {
    assert (sets + [a])[..|sets|] == sets;
  }

  /** Whether the i-th argument after the id (in declaration order) was
      given, i.e. is not undefined. */
  function Given(p: RestaurantPatch, i: nat): bool
    requires i < 8
  {
    match i
    case 0 => p.name.Some?
    case 1 => !p.neighborhood.Undefined?
    case 2 => !p.cuisineType.Undefined?
    case 3 => !p.address.Undefined?
    case 4 => !p.photograph.Undefined?
    case 5 => !p.lat.Undefined?
    case 6 => !p.lng.Undefined?
    case _ => !p.image.Undefined?
  }

  /** The assignment the i-th argument contributes when it is given. */
  function AssignmentAt(p: RestaurantPatch, i: nat): Assignment
    requires i < 8
  {
    match i
    case 0 => SetName(p.name.GetOr(""))
    case 1 => SetNeighborhood(p.neighborhood.OrNull())
    case 2 => SetCuisineType(p.cuisineType.OrNull())
    case 3 => SetAddress(p.address.OrNull())
    case 4 => SetPhotograph(p.photograph.OrNull())
    case 5 => SetLat(p.lat.OrNull())
    case 6 => SetLng(p.lng.OrNull())
    case _ => SetImage(p.image.OrNull())
  }

  /** The SET list after the first k arguments have been looked at. */
  function Pushes(p: RestaurantPatch, k: nat): seq<Assignment>
    requires k <= 8
  {
    if k == 0 then []
    else if Given(p, k - 1) then Pushes(p, k - 1) + [AssignmentAt(p, k - 1)]
    else Pushes(p, k - 1)
  }

  /** The SET list updateRestaurant builds, in the order of its arguments. */
  function AssignmentsOf(p: RestaurantPatch): seq<Assignment> {
    Pushes(p, 8)
  }

  /** The column after the update: kept when the argument is undefined. */
  function Keep<T>(column: Nullable<T>, arg: Maybe<T>): Nullable<T> {
    if arg.Undefined? then column else arg.OrNull()
  }

  /** What the update means for the row it hits: exactly the given columns
      take the given values. */
  function Revised(v: RestaurantRow, p: RestaurantPatch): RestaurantRow {
    RestaurantRow(
      v.id,
      if p.name.Some? then p.name.value else v.name,
      Keep(v.neighborhood, p.neighborhood),
      Keep(v.cuisineType, p.cuisineType),
      Keep(v.address, p.address),
      Keep(v.photograph, p.photograph),
      Keep(v.lat, p.lat),
      Keep(v.lng, p.lng),
      Keep(v.image, p.image))
  }

  /** The i-th column of `r` revised by the i-th argument. */
  function Step(r: RestaurantRow, p: RestaurantPatch, i: nat): RestaurantRow
    requires i < 8
  {
    match i
    case 0 => r.(name := if p.name.Some? then p.name.value else r.name)
    case 1 => r.(neighborhood := Keep(r.neighborhood, p.neighborhood))
    case 2 => r.(cuisineType := Keep(r.cuisineType, p.cuisineType))
    case 3 => r.(address := Keep(r.address, p.address))
    case 4 => r.(photograph := Keep(r.photograph, p.photograph))
    case 5 => r.(lat := Keep(r.lat, p.lat))
    case 6 => r.(lng := Keep(r.lng, p.lng))
    case _ => r.(image := Keep(r.image, p.image))
  }

  /** The first k columns revised. */
  function RevisedUpTo(v: RestaurantRow, p: RestaurantPatch, k: nat): RestaurantRow
    requires k <= 8
  {
    if k == 0 then v else Step(RevisedUpTo(v, p, k - 1), p, k - 1)
  }

  lemma StepIsAssignment(r: RestaurantRow, p: RestaurantPatch, i: nat)
    requires i < 8
    ensures Given(p, i) ==> Step(r, p, i) == Apply(r, AssignmentAt(p, i))
    ensures !Given(p, i) ==> Step(r, p, i) == r
  {
  }

  lemma {:induction false} PushesMeaning(v: RestaurantRow, p: RestaurantPatch, k: nat)
    requires k <= 8
    ensures ApplyAll(v, Pushes(p, k)) == RevisedUpTo(v, p, k)
    ensures Pushes(p, k) == [] <==> forall i :: 0 <= i < k ==> !Given(p, i)
  {
    if k > 0 {
      PushesMeaning(v, p, k - 1);
      StepIsAssignment(RevisedUpTo(v, p, k - 1), p, k - 1);
      if Given(p, k - 1) {
        ApplyPush(v, Pushes(p, k - 1), AssignmentAt(p, k - 1));
      }
    }
  }

  predicate NothingGiven(p: RestaurantPatch) {
    && p.name.None? && p.neighborhood.Undefined? && p.cuisineType.Undefined? && p.address.Undefined?
    && p.photograph.Undefined? && p.lat.Undefined? && p.lng.Undefined? && p.image.Undefined?
  }

  /** Applying the SET list is the revision the arguments describe, and the
      list is empty exactly when no argument was given. */
  lemma AssignmentsMeaning(v: RestaurantRow, p: RestaurantPatch)
    ensures ApplyAll(v, AssignmentsOf(p)) == Revised(v, p)
    ensures AssignmentsOf(p) == [] <==> NothingGiven(p)
  {
    PushesMeaning(v, p, 8);
    var r0 := v;
    var r1 := Step(r0, p, 0);
    var r2 := Step(r1, p, 1);
    var r3 := Step(r2, p, 2);
    var r4 := Step(r3, p, 3);
    var r5 := Step(r4, p, 4);
    var r6 := Step(r5, p, 5);
    var r7 := Step(r6, p, 6);
    var r8 := Step(r7, p, 7);
    assert RevisedUpTo(v, p, 1) == r1;
    assert RevisedUpTo(v, p, 2) == r2;
    assert RevisedUpTo(v, p, 3) == r3;
    assert RevisedUpTo(v, p, 4) == r4;
    assert RevisedUpTo(v, p, 5) == r5;
    assert RevisedUpTo(v, p, 6) == r6;
    assert RevisedUpTo(v, p, 7) == r7;
    assert RevisedUpTo(v, p, 8) == r8;
    assert (forall i :: 0 <= i < 8 ==> !Given(p, i)) <==> NothingGiven(p) by {
      if NothingGiven(p) {
        forall i | 0 <= i < 8 ensures !Given(p, i) {
        }
      } else {
        assert !Given(p, 0) && !Given(p, 1) && !Given(p, 2) && !Given(p, 3) ==> Given(p, 4) || Given(p, 5) || Given(p, 6) || Given(p, 7);
      }
    }
  }

  /** The row rewrite of `UPDATE restaurants SET ... WHERE id = ?`. */
  function UpdateWhere(id: int, sets: seq<Assignment>): RestaurantRow -> RestaurantRow {
    (v: RestaurantRow) => if v.id == id then ApplyAll(v, sets) else v
  }

  /** The effect the update is meant to have on each row: the row with that
      id is revised, every other row is kept. */
  function Revision(id: int, p: RestaurantPatch): RestaurantRow -> RestaurantRow {
    (v: RestaurantRow) => if v.id == id then Revised(v, p) else v
  }

  /** updateRestaurant: only the row with that id changes, and in it exactly
      the columns whose argument is not undefined; with no argument given no
      statement runs. */
  method UpdateRestaurant(db: Database, id: int, p: RestaurantPatch)
    modifies db
    requires Valid(db.State())
    ensures Valid(db.State())
    ensures db.State() == old(db.State()).(restaurants := Seqs.Map(old(db.restaurants), Revision(id, p)))
  {
    var updates := SetList(p);
    SetListMeaning(db.restaurants, id, p);
    if |updates| == 0 {
      NothingGivenKeepsRows(db.restaurants, id, p);
      return;
    }
    UpdateRows(db, UpdateWhere(id, updates));
  }

  /** The first half of updateRestaurant: one `column = ?` pushed per
      argument that is not undefined, in argument order. */
  method SetList(p: RestaurantPatch) returns (updates: seq<Assignment>)
    ensures updates == AssignmentsOf(p)
    ensures updates == [] <==> NothingGiven(p)
  {
    updates := [];
    if p.name.Some? {
      updates := updates + [SetName(p.name.value)];
    }
    assert updates == Pushes(p, 1);
    if !p.neighborhood.Undefined? {
      updates := updates + [SetNeighborhood(p.neighborhood.OrNull())];
    }
    assert updates == Pushes(p, 2);
    if !p.cuisineType.Undefined? {
      updates := updates + [SetCuisineType(p.cuisineType.OrNull())];
    }
    assert updates == Pushes(p, 3);
    if !p.address.Undefined? {
      updates := updates + [SetAddress(p.address.OrNull())];
    }
    assert updates == Pushes(p, 4);
    if !p.photograph.Undefined? {
      updates := updates + [SetPhotograph(p.photograph.OrNull())];
    }
    assert updates == Pushes(p, 5);
    if !p.lat.Undefined? {
      updates := updates + [SetLat(p.lat.OrNull())];
    }
    assert updates == Pushes(p, 6);
    if !p.lng.Undefined? {
      updates := updates + [SetLng(p.lng.OrNull())];
    }
    assert updates == Pushes(p, 7);
    if !p.image.Undefined? {
      updates := updates + [SetImage(p.image.OrNull())];
    }
    AssignmentsMeaning(RestaurantRow(0, "", Null, Null, Null, Null, Null, Null, Null), p);
  }

  /** Running the SET list the update builds is the intended revision, and
      the list is empty only when no argument was given. */
  lemma SetListMeaning(rows: seq<RestaurantRow>, id: int, p: RestaurantPatch)
    ensures Seqs.Map(rows, UpdateWhere(id, AssignmentsOf(p))) == Seqs.Map(rows, Revision(id, p))
    ensures AssignmentsOf(p) == [] <==> NothingGiven(p)
  {
    forall v: RestaurantRow
      ensures UpdateWhere(id, AssignmentsOf(p))(v) == Revision(id, p)(v)
    {
      AssignmentsMeaning(v, p);
    }
    Seqs.MapAgree(rows, UpdateWhere(id, AssignmentsOf(p)), Revision(id, p));
    AssignmentsMeaning(RestaurantRow(0, "", Null, Null, Null, Null, Null, Null, Null), p);
  }

  /** With no argument given the revision is the identity, so the update
      leaves the table as it was. */
  lemma NothingGivenKeepsRows(rows: seq<RestaurantRow>, id: int, p: RestaurantPatch)
    requires NothingGiven(p)
    ensures Seqs.Map(rows, Revision(id, p)) == rows
  {
    Seqs.MapUnchanged(rows, Revision(id, p));
  }

  /** Runs one UPDATE over the restaurants table: every row is rewritten by
      `f`, which keeps the id. */
  method UpdateRows(db: Database, f: RestaurantRow -> RestaurantRow)
    modifies db
    requires Valid(db.State())
    requires forall v :: f(v).id == v.id
    ensures Valid(db.State())
    ensures db.State() == old(db.State()).(restaurants := Seqs.Map(old(db.restaurants), f))
  {
    MapRestaurantsValid(db.State(), f);
    db.restaurants := Seqs.Map(db.restaurants, f);
  }

  function IdIsNot(id: int): RestaurantRow -> bool {
    (v: RestaurantRow) => v.id != id
  }

  /** deleteRestaurant: removes the row with that id and nothing else. */
  method DeleteRestaurant(db: Database, id: int)
    modifies db
    requires Valid(db.State())
    ensures Valid(db.State())
    ensures db.State() == old(db.State()).(restaurants := Seqs.Filter(old(db.restaurants), IdIsNot(id)))
    ensures forall v :: v in db.restaurants <==> v in old(db.restaurants) && v.id != id
  {
    FilterRestaurantsValid(db.State(), IdIsNot(id));
    db.restaurants := Seqs.Filter(db.restaurants, IdIsNot(id));
  }
}
