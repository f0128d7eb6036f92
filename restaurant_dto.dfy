/** The validation schemas of the restaurant endpoints: the listing query,
    the create and update bodies and the `:restaurant_id` path parameter. */
module RestaurantDto {
  import opened Wrappers
  import opened Json
  import opened Zod
  import Text

  // ---------------------------------------------------------------------
  // Listing query
  // ---------------------------------------------------------------------

  /** The parsed listing query. Absent text filters stay `Undefined`, an
      explicit null (impossible from a query string, possible in the type)
      is `Nil`. */
  datatype RestaurantsQuery = RestaurantsQuery(
    page: int,
    limit: int,
    cuisineType: Maybe<string>,
    neighborhood: Maybe<string>,
    rating: Option<real>,
    sort: Option<string>)

  predicate IsFieldChar(c: char) {
    ('a' <= c <= 'z') || ('A' <= c <= 'Z') || c == '_'
  }

  /** The sort pattern `^[a-z_]+:(asc|desc)$` with the `i` flag: one colon,
      a non-empty run of letters and underscores before it and "asc" or
      "desc" in any letter case after it. */
  predicate IsSortSpec(s: string) {
    var parts := Text.Split(s, ':');
    && |parts| == 2
    && |parts[0]| >= 1
    && (forall i :: 0 <= i < |parts[0]| ==> IsFieldChar(parts[0][i]))
    && (Text.ToLower(parts[1]) == "asc" || Text.ToLower(parts[1]) == "desc")
  }

  const PageChecks := [MinCheck(1.0, "INVALID_PAGE")]
  const LimitChecks := [MinCheck(1.0, "INVALID_LIMIT"), MaxCheck(100.0, "INVALID_LIMIT")]
  const QueryRatingChecks := [MinCheck(0.0, "RATING_MIN"), MaxCheck(5.0, "RATING_MAX")]

  /** What the filters of a parsed listing query promise. */
  predicate FiltersWithin(x: RestaurantsQuery) {
    && TrimmedWithin(x.cuisineType, 100)
    && TrimmedWithin(x.neighborhood, 100)
    && (x.rating.Some? ==> 0.0 <= x.rating.value <= 5.0)
    && (x.sort.Some? ==> IsSortSpec(x.sort.value))
  }

  // The schema of each field, on its own. `cuisine_type` and
  // `neighborhood` have the same schema in the query and in the bodies.

  function PageField(q: Json): Result<int, Issue> {
    DefaultedInt(Get(q, "page"), ["page"], PageChecks, 1)
  }

  function LimitField(q: Json): Result<int, Issue> {
    DefaultedInt(Get(q, "limit"), ["limit"], LimitChecks, 10)
  }

  function CuisineTypeField(j: Json): Result<Maybe<string>, Issue> {
    TrimmedText(Get(j, "cuisine_type"), ["cuisine_type"], 100, "CUISINE_TYPE_TOO_LONG")
  }

  function NeighborhoodField(j: Json): Result<Maybe<string>, Issue> {
    TrimmedText(Get(j, "neighborhood"), ["neighborhood"], 100, "NEIGHBORHOOD_TOO_LONG")
  }

  function RatingFilterField(q: Json): Result<Option<real>, Issue> {
    OptionalCoercedNumber(Get(q, "rating"), ["rating"], QueryRatingChecks)
  }

  function SortField(q: Json): Result<Option<string>, Issue> {
    OptionalString(Get(q, "sort"), ["sort"], None, [Matches(IsSortSpec, "INVALID_SORT")])
  }

  /** Every filter of the query passes its own schema. */
  predicate FiltersParse(q: Json) {
    && CuisineTypeField(q).Ok? && NeighborhoodField(q).Ok? && RatingFilterField(q).Ok? && SortField(q).Ok?
  }

  /** RestaurantsQueryDTO: the fields are checked in the order page, limit,
      cuisine_type, neighborhood, rating, sort, and the first issue wins.
      The query is accepted exactly when every field passes its schema, and
      then each field is what its schema makes of it. */
  function DecodeRestaurantsQuery(q: Json): (r: Result<RestaurantsQuery, Issue>)
    ensures r.Ok? <==> q.JObj? && PageField(q).Ok? && LimitField(q).Ok? && FiltersParse(q)
    ensures r.Ok? ==> r.value == RestaurantsQuery(PageField(q).value, LimitField(q).value,
      CuisineTypeField(q).value, NeighborhoodField(q).value, RatingFilterField(q).value, SortField(q).value)
    ensures r.Ok? ==> r.value.page >= 1 && 1 <= r.value.limit <= 100 && FiltersWithin(r.value)
    ensures Get(q, "page").None? && r.Ok? ==> r.value.page == 1
    ensures Get(q, "limit").None? && r.Ok? ==> r.value.limit == 10
    ensures !q.JObj? ==> r == Err(NotAnObject(q, []))
    ensures q.JObj? && PageField(q).Err? ==> r == Err(PageField(q).error)
  {
    if !q.JObj? then Err(NotAnObject(q, []))
    else
      var page :- PageField(q);
      assert NumCheckPasses(PageChecks[0], page as real);
      var limit :- LimitField(q);
      assert NumCheckPasses(LimitChecks[0], limit as real) && NumCheckPasses(LimitChecks[1], limit as real);
      DecodeQueryFilters(q, page, limit)
  }

  /** The fields after `limit`, in the schema's order; the first issue wins. */
  function DecodeQueryFilters(q: Json, page: int, limit: int): (r: Result<RestaurantsQuery, Issue>)
    ensures r.Ok? <==> FiltersParse(q)
    ensures r.Ok? ==> r.value == RestaurantsQuery(page, limit,
      CuisineTypeField(q).value, NeighborhoodField(q).value, RatingFilterField(q).value, SortField(q).value)
    ensures r.Ok? ==> FiltersWithin(r.value)
    ensures CuisineTypeField(q).Err? ==> r == Err(CuisineTypeField(q).error)
  {
    var cuisine :- CuisineTypeField(q);
    var neighborhood :- NeighborhoodField(q);
    var rating :- RatingFilterField(q);
    assert rating.Some? ==> NumCheckPasses(QueryRatingChecks[0], rating.value) && NumCheckPasses(QueryRatingChecks[1], rating.value);
    var sort :- SortField(q);
    assert sort.Some? ==> IsSortSpec(sort.value) by {
      if sort.Some? {
        var steps := [Matches(IsSortSpec, "INVALID_SORT")];
        var s := Get(q, "sort").value.s;
        RunCons(steps[0], [], s);
        assert steps == [steps[0]] + [];
      }
    }
    Ok(RestaurantsQuery(page, limit, cuisine, neighborhood, rating, sort))
  }

  /** An empty query string lists the first page of ten, unfiltered. */
  lemma EmptyQueryDefaults()
    ensures DecodeRestaurantsQuery(JObj(map[])) == Ok(RestaurantsQuery(1, 10, Undefined, Undefined, None, None))
  {
  }

  /** A limit above 100 is refused with INVALID_LIMIT rather than clamped. */
  lemma LimitAboveMaximumRejected(k: nat)
    requires k > 100
    ensures DecodeRestaurantsQuery(JObj(map["limit" := JStr(Text.NatToString(k))]))
      == Err(Issue(["limit"], "INVALID_LIMIT"))
  {
    LimitFieldAboveMaximum(k);
    var q := JObj(map["limit" := JStr(Text.NatToString(k))]);
    assert Get(q, "page").None?;
    assert Get(q, "limit") == Some(JStr(Text.NatToString(k)));
  }

  lemma LimitFieldAboveMaximum(k: nat)
    requires k > 100
    ensures DefaultedInt(Some(JStr(Text.NatToString(k))), ["limit"], LimitChecks, 10)
      == Err(Issue(["limit"], "INVALID_LIMIT"))
  {
    var v := Some(JStr(Text.NatToString(k)));
    LimitCoercionRefused(k);
    assert CoercedInt(v, ["limit"], LimitChecks) == Err(Issue(["limit"], "INVALID_LIMIT"));
  }

  /** The decimal text of such a `k` coerces to `k`, which `.max(100)` refuses. */
  lemma LimitCoercionRefused(k: nat)
    requires k > 100
    ensures CoercedNumberField(Some(JStr(Text.NatToString(k))), ["limit"], [IntCheck(NotIntegerMessage)] + LimitChecks)
      == Err(Issue(["limit"], "INVALID_LIMIT"))
  {
    NatTextCoerces(k);
    LimitChecksRefuse(k as real);
  }

  /** The decimal text of `k` coerces to `k`, an integer. */
  lemma NatTextCoerces(k: nat)
    ensures Coerce(Some(JStr(Text.NatToString(k)))) == Fin(k as real)
    ensures IsInteger(k as real)
  {
    ParseNatString(k);
  }

  /** An integer above 100 passes `.int()` and `.min(1)` and fails `.max(100)`. */
  lemma LimitChecksRefuse(x: real)
    requires x > 100.0 && IsInteger(x)
    ensures FirstNumFailure([IntCheck(NotIntegerMessage)] + LimitChecks, x) == Some("INVALID_LIMIT")
  {
    var checks := [IntCheck(NotIntegerMessage)] + LimitChecks;
    assert checks[1..] == LimitChecks;
    assert LimitChecks[1..] == [MaxCheck(100.0, "INVALID_LIMIT")];
    assert FirstNumFailure([MaxCheck(100.0, "INVALID_LIMIT")], x) == Some("INVALID_LIMIT");
  }

  /** A page below 1 is refused with INVALID_PAGE. */
  lemma PageZeroRejected()
    ensures DecodeRestaurantsQuery(JObj(map["page" := JStr("0")]))
      == Err(Issue(["page"], "INVALID_PAGE"))
  {
    var q := JObj(map["page" := JStr("0")]);
    assert Get(q, "page") == Some(JStr("0"));
    PageFieldZero();
  }

  /** "0" coerces to 0, an integer that `.min(1)` refuses. */
  lemma PageFieldZero()
    ensures DefaultedInt(Some(JStr("0")), ["page"], PageChecks, 1) == Err(Issue(["page"], "INVALID_PAGE"))
  {
    ParseNatString(0);
    assert Text.NatToString(0) == "0";
    var checks := [IntCheck(NotIntegerMessage)] + PageChecks;
    assert checks[1..] == PageChecks;
    assert FirstNumFailure(checks, 0.0) == Some("INVALID_PAGE");
    assert CoercedNumberField(Some(JStr("0")), ["page"], checks) == Err(Issue(["page"], "INVALID_PAGE"));
  }

  // ---------------------------------------------------------------------
  // Create and update bodies
  // ---------------------------------------------------------------------

  /** One element of the `hours` array. */
  datatype HoursEntry = HoursEntry(day: string, hours: string)

  /** The parsed body of a create or an update. Only `name` differs between
      the two: required on create, optional on update. */
  datatype RestaurantInput = RestaurantInput(
    name: Option<string>,
    neighborhood: Maybe<string>,
    cuisineType: Maybe<string>,
    address: Maybe<string>,
    photograph: Maybe<string>,
    image: Maybe<string>,
    lat: Option<real>,
    lng: Option<real>,
    hours: Option<seq<HoursEntry>>)

  const NameSteps := [MinLen(1, "NAME_REQUIRED"), MaxLen(200, "NAME_TOO_LONG"), TrimStep]
  const LatChecks := [MinCheck(-90.0, "INVALID_LAT"), MaxCheck(90.0, "INVALID_LAT")]
  const LngChecks := [MinCheck(-180.0, "INVALID_LNG"), MaxCheck(180.0, "INVALID_LNG")]

  /** The `day` and `hours` strings of the entry at index `i`. */
  function DayField(v: Json, i: nat): Result<string, Issue> {
    TrimmedRequired(Get(v, "day"), ["hours", Text.NatToString(i), "day"], 20, "INVALID_DAY")
  }

  function HoursTextField(v: Json, i: nat): Result<string, Issue> {
    TrimmedRequired(Get(v, "hours"), ["hours", Text.NatToString(i), "hours"], 100, "INVALID_HOURS")
  }

  /** One `{day, hours}` object of the array, at index `i`: accepted when
      both fields pass their schemas, and then made of what they give. */
  function DecodeHoursEntry(v: Json, i: nat): (r: Result<HoursEntry, Issue>)
    ensures r.Ok? <==> v.JObj? && DayField(v, i).Ok? && HoursTextField(v, i).Ok?
    ensures r.Ok? ==> r.value == HoursEntry(DayField(v, i).value, HoursTextField(v, i).value)
    ensures r.Ok? ==> Text.JsLength(r.value.day) <= 20 && Text.JsLength(r.value.hours) <= 100
    ensures r.Err? ==> |r.error.path| >= 2 && r.error.path[..2] == ["hours", Text.NatToString(i)]
  {
    if !v.JObj? then Err(NotAnObject(v, ["hours", Text.NatToString(i)]))
    else
      var day :- DayField(v, i);
      var hours :- HoursTextField(v, i);
      Ok(HoursEntry(day, hours))
  }

  /** An entry is accepted when both strings are at most 20 and 100 code
      units long once trimmed, and is then kept trimmed. */
  lemma HoursEntryTrimmed(v: Json, i: nat)
    ensures DecodeHoursEntry(v, i).Ok? <==>
      && v.JObj?
      && Get(v, "day").Some? && Get(v, "day").value.JStr? && Text.JsLength(Text.Trim(Get(v, "day").value.s)) <= 20
      && Get(v, "hours").Some? && Get(v, "hours").value.JStr? && Text.JsLength(Text.Trim(Get(v, "hours").value.s)) <= 100
    ensures DecodeHoursEntry(v, i).Ok? ==>
      DecodeHoursEntry(v, i).value == HoursEntry(Text.Trim(Get(v, "day").value.s), Text.Trim(Get(v, "hours").value.s))
  {
  }

  /** `list` holds, in order, what each element of `items` parses to, the
      first element being at index `from` of the array. */
  predicate EachParses(items: seq<Json>, from: nat, list: seq<HoursEntry>)
    decreases |items|
  {
    && |items| == |list|
    && (|items| > 0 ==>
          DecodeHoursEntry(items[0], from) == Ok(list[0]) && EachParses(items[1..], from + 1, list[1..]))
  }

  /** The array's elements from index `from` on; the first failing element
      gives the issue. */
  function DecodeHoursFrom(items: seq<Json>, from: nat): (r: Result<seq<HoursEntry>, Issue>)
    decreases |items|
    ensures r.Ok? ==> EachParses(items, from, r.value)
    ensures r.Err? ==> |r.error.path| >= 2 && r.error.path[0] == "hours"
  {
    if items == [] then Ok([])
    else
      var first :- DecodeHoursEntry(items[0], from);
      var rest :- DecodeHoursFrom(items[1..], from + 1);
      assert ([first] + rest)[1..] == rest;
      Ok([first] + rest)
  }

  /** The elements from index `from` on parse when each of them does. */
  lemma {:induction false} HoursFromAccepted(items: seq<Json>, from: nat)
    ensures (forall k :: 0 <= k < |items| ==> DecodeHoursEntry(items[k], from + k).Ok?) ==> DecodeHoursFrom(items, from).Ok?
    decreases |items|
  {
    if items != [] {
      var tail := items[1..];
      HoursFromAccepted(tail, from + 1);
      assert DecodeHoursFrom(items, from).Ok? <==>
        DecodeHoursEntry(items[0], from).Ok? && DecodeHoursFrom(tail, from + 1).Ok?;
      if forall k :: 0 <= k < |items| ==> DecodeHoursEntry(items[k], from + k).Ok? {
        forall k | 0 <= k < |tail| ensures DecodeHoursEntry(tail[k], from + 1 + k).Ok? {
          assert tail[k] == items[k + 1];
        }
      }

    }
  }

  /** Entry by entry: the `k`-th entry of the list is what the `k`-th
      element parses to. */
  lemma {:induction false} EachParsesAt(items: seq<Json>, from: nat, list: seq<HoursEntry>)
    requires EachParses(items, from, list)
    ensures forall k :: 0 <= k < |items| ==> DecodeHoursEntry(items[k], from + k) == Ok(list[k])
    decreases |items|
  {
    if |items| > 0 {
      EachParsesAt(items[1..], from + 1, list[1..]);
      forall k | 0 <= k < |items| ensures DecodeHoursEntry(items[k], from + k) == Ok(list[k]) {
        if k > 0 {
          assert items[k] == items[1..][k - 1] && list[k] == list[1..][k - 1];
        }
      }
    }
  }

  /** The optional `hours` array. */
  function DecodeHours(v: Option<Json>): (r: Result<Option<seq<HoursEntry>>, Issue>)
    ensures v.None? ==> r == Ok(None)
    ensures r.Ok? && r.value.Some? ==> v.Some? && v.value.JArr? && |r.value.value| == |v.value.items|
    ensures r.Ok? && r.value.Some? ==>
      forall k :: 0 <= k < |r.value.value| ==> DecodeHoursEntry(v.value.items[k], k) == Ok(r.value.value[k])
    ensures r.Ok? && r.value.Some? ==>
      forall k :: 0 <= k < |r.value.value| ==> Text.JsLength(r.value.value[k].day) <= 20 && Text.JsLength(r.value.value[k].hours) <= 100
    ensures v.Some? && !v.value.JArr? ==> r == Err(Issue(["hours"], TypeMessage("array", v)))
  {
    match v
    case None => Ok(None)
    case Some(JArr(items)) =>
      (match DecodeHoursFrom(items, 0)
       case Err(e) => Err(e)
       case Ok(list) =>
         EachParsesAt(items, 0, list);
         Ok(Some(list)))
    case Some(_) => Err(Issue(["hours"], TypeMessage("array", v)))
  }

  /** The array is accepted exactly when each of its elements is. */
  lemma HoursAccepted(v: Option<Json>)
    requires v.Some?
    ensures DecodeHours(v).Ok? <==> v.value.JArr? && forall k :: 0 <= k < |v.value.items| ==> DecodeHoursEntry(v.value.items[k], k).Ok?
  {
    if v.value.JArr? {
      HoursFromAccepted(v.value.items, 0);
    }
  }

  /** The `name` field: `partial` is the update schema, where it may be
      absent. It is length-checked before it is trimmed. */
  function DecodeName(v: Option<Json>, partial: bool): (r: Result<Option<string>, Issue>)
    ensures r.Ok? && r.value.Some? ==>
      v.Some? && v.value.JStr? && 1 <= Text.JsLength(v.value.s) <= 200 && r.value.value == Text.Trim(v.value.s)
    ensures v.Some? && v.value.JStr? ==> (r.Ok? <==> 1 <= Text.JsLength(v.value.s) <= 200)
    ensures v.None? ==> r == (if partial then Ok(None) else Err(Issue(["name"], "NAME_REQUIRED")))
    ensures v.Some? ==> r.Ok? ==> r.value.Some?
  {
    if partial && v.None? then Ok(None)
    else
      var field := StringField(v, ["name"], Some("NAME_REQUIRED"), NameSteps);
      if v.Some? && v.value.JStr? then
        MinMaxThenTrim(v.value.s, 1, "NAME_REQUIRED", 200, "NAME_TOO_LONG");
        if field.Ok? then Ok(Some(field.value)) else Err(field.error)
      else Err(field.error)
  }

  /** max(200) counts code units: a name of 150 emoji is 300 units long and
      is refused. */
  lemma EmojiNameTooLong()
    ensures DecodeName(Some(JStr(seq(150, _ => '\U{1F600}'))), false) == Err(Issue(["name"], "NAME_TOO_LONG"))
  {
    var s: string := seq(150, _ => '\U{1F600}');
    Text.AstralLength(s);
    MinMaxThenTrim(s, 1, "NAME_REQUIRED", 200, "NAME_TOO_LONG");
  }

  /** What the fields of a create or an update body promise once parsed. */
  predicate InputWithin(x: RestaurantInput) {
    && (x.name.Some? ==> Text.JsLength(x.name.value) <= 200)
    && TrimmedWithin(x.neighborhood, 100)
    && TrimmedWithin(x.cuisineType, 100)
    && TrimmedWithin(x.address, 500)
    && TrimmedWithin(x.photograph, 1000)
    && TrimmedWithin(x.image, 1000)
    && (x.lat.Some? ==> -90.0 <= x.lat.value <= 90.0)
    && (x.lng.Some? ==> -180.0 <= x.lng.value <= 180.0)
    && (x.hours.Some? ==> forall k :: 0 <= k < |x.hours.value| ==>
          Text.JsLength(x.hours.value[k].day) <= 20 && Text.JsLength(x.hours.value[k].hours) <= 100)
  }

  function AddressField(body: Json): Result<Maybe<string>, Issue> {
    TrimmedText(Get(body, "address"), ["address"], 500, "ADDRESS_TOO_LONG")
  }

  function PhotographField(body: Json): Result<Maybe<string>, Issue> {
    TrimmedText(Get(body, "photograph"), ["photograph"], 1000, "PHOTOGRAPH_TOO_LONG")
  }

  function ImageField(body: Json): Result<Maybe<string>, Issue> {
    TrimmedText(Get(body, "image"), ["image"], 1000, "IMAGE_TOO_LONG")
  }

  function LatField(body: Json): Result<Option<real>, Issue> {
    OptionalStrictNumber(Get(body, "lat"), ["lat"], Some("INVALID_LAT"), LatChecks)
  }

  function LngField(body: Json): Result<Option<real>, Issue> {
    OptionalStrictNumber(Get(body, "lng"), ["lng"], Some("INVALID_LNG"), LngChecks)
  }

  /** Every field after `name` passes its own schema. */
  predicate OtherFieldsParse(body: Json) {
    && NeighborhoodField(body).Ok? && CuisineTypeField(body).Ok? && AddressField(body).Ok?
    && PhotographField(body).Ok? && ImageField(body).Ok? && LatField(body).Ok? && LngField(body).Ok?
    && DecodeHours(Get(body, "hours")).Ok?
  }

  /** The body made of what each field's schema gives. */
  function FieldByField(body: Json, name: Option<string>): RestaurantInput
    requires OtherFieldsParse(body)
  {
    RestaurantInput(name, NeighborhoodField(body).value, CuisineTypeField(body).value, AddressField(body).value,
      PhotographField(body).value, ImageField(body).value, LatField(body).value, LngField(body).value,
      DecodeHours(Get(body, "hours")).value)
  }

  /** CreateRestaurantDTO (`partial` false) and its `.partial()` used for
      updates (`partial` true). Unknown keys are dropped. The body is
      accepted exactly when every field passes its schema, and is then made
      of what each field's schema gives. */
  function DecodeRestaurantBody(body: Json, partial: bool): (r: Result<RestaurantInput, Issue>)
    ensures r.Ok? <==> body.JObj? && DecodeName(Get(body, "name"), partial).Ok? && OtherFieldsParse(body)
    ensures r.Ok? ==> r.value == FieldByField(body, DecodeName(Get(body, "name"), partial).value)
    ensures r.Ok? ==> (!partial ==> r.value.name.Some?) && InputWithin(r.value)
    ensures !body.JObj? ==> r == Err(NotAnObject(body, []))
    ensures body.JObj? && DecodeName(Get(body, "name"), partial).Err? ==> r == Err(DecodeName(Get(body, "name"), partial).error)
  {
    if !body.JObj? then Err(NotAnObject(body, []))
    else
      var name :- DecodeName(Get(body, "name"), partial);
      assert name.Some? ==> Text.JsLength(name.value) <= 200 by {
        if name.Some? { Text.TrimShortens(Get(body, "name").value.s); }
      }
      DecodeOtherFields(body, name)
  }

  /** The fields after `name`, in the schema's order; the first issue wins. */
  function DecodeOtherFields(body: Json, name: Option<string>): (r: Result<RestaurantInput, Issue>)
    requires name.Some? ==> Text.JsLength(name.value) <= 200
    ensures r.Ok? <==> OtherFieldsParse(body)
    ensures r.Ok? ==> r.value == FieldByField(body, name)
    ensures r.Ok? ==> InputWithin(r.value)
    ensures NeighborhoodField(body).Err? ==> r == Err(NeighborhoodField(body).error)
  {
    var neighborhood :- NeighborhoodField(body);
    var cuisine :- CuisineTypeField(body);
    var address :- AddressField(body);
    var photograph :- PhotographField(body);
    var image :- ImageField(body);
    var lat :- LatField(body);
    assert lat.Some? ==> NumCheckPasses(LatChecks[0], lat.value) && NumCheckPasses(LatChecks[1], lat.value);
    var lng :- LngField(body);
    assert lng.Some? ==> NumCheckPasses(LngChecks[0], lng.value) && NumCheckPasses(LngChecks[1], lng.value);
    var hours :- DecodeHours(Get(body, "hours"));
    Ok(RestaurantInput(name, neighborhood, cuisine, address, photograph, image, lat, lng, hours))
  }

  /** The update schema is the create schema with `name` made optional: a
      body that carries a name is judged the same way by both, and a body
      without one is refused by create with NAME_REQUIRED. */
  lemma UpdateIsPartialCreate(body: Json)
    requires body.JObj?
    ensures "name" in body.fields ==> DecodeRestaurantBody(body, true) == DecodeRestaurantBody(body, false)
    ensures "name" !in body.fields ==> DecodeRestaurantBody(body, false) == Err(Issue(["name"], "NAME_REQUIRED"))
    ensures "name" !in body.fields && DecodeRestaurantBody(body, true).Ok? ==>
      DecodeRestaurantBody(body, true).value.name.None?
  {
  }

  /** The length checks on `name` run before the trim, so a name made only
      of spaces passes them and is stored as the empty string. */
  lemma BlankNameBecomesEmpty()
    ensures DecodeRestaurantBody(JObj(map["name" := JStr(" ")]), false).Ok?
    ensures DecodeRestaurantBody(JObj(map["name" := JStr(" ")]), false).value.name == Some("")
  {
    var body := JObj(map["name" := JStr(" ")]);
    assert Get(body, "name") == Some(JStr(" "));
    BlankNameTrimmed();
    NameOnlyBody(" ", Some(""));
  }

  lemma BlankNameTrimmed()
    ensures DecodeName(Some(JStr(" ")), false) == Ok(Some(""))
  {
    assert Text.IsWhiteSpace(' ');
    assert Text.TrimStart(" ") == "";
  }

  /** A body that carries only `name` has nothing else to refuse. */
  lemma NameOnlyBody(s: string, name: Option<string>)
    requires name.Some? ==> Text.JsLength(name.value) <= 200
    ensures DecodeOtherFields(JObj(map["name" := JStr(s)]), name).Ok?
    ensures DecodeOtherFields(JObj(map["name" := JStr(s)]), name).value.name == name
  {
    var body := JObj(map["name" := JStr(s)]);
    assert Get(body, "neighborhood").None? && Get(body, "cuisine_type").None? && Get(body, "address").None?;
    assert Get(body, "photograph").None? && Get(body, "image").None?;
    assert Get(body, "lat").None? && Get(body, "lng").None? && Get(body, "hours").None?;
  }

  // ---------------------------------------------------------------------
  // Path parameter
  // ---------------------------------------------------------------------

  /** RestaurantParamsDTO: a positive integer `restaurant_id`. */
  function DecodeRestaurantParams(p: Json): (r: Result<int, Issue>)
    ensures r.Ok? ==> r.value >= 1
    ensures p.JObj? ==> r == PositiveId(Get(p, "restaurant_id"), ["restaurant_id"], "INVALID_RESTAURANT_ID")
  {
    if !p.JObj? then Err(NotAnObject(p, []))
    else PositiveId(Get(p, "restaurant_id"), ["restaurant_id"], "INVALID_RESTAURANT_ID")
  }
}
