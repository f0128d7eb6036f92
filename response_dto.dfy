/** The output schemas the services parse their results through. Rows read
    from the tables already carry the declared types, so these schemas only
    project and drop undeclared columns, except for the e-mail checks, which
    can fail. */
module ResponseDto {
  import opened Wrappers
  import opened Json
  import opened Zod
  import opened Tables
  import Text
  import RestaurantDto

  // ---------------------------------------------------------------------
  // Users
  // ---------------------------------------------------------------------

  /** The projection of a user row onto id, email and role. */
  datatype UserBasic = UserBasic(id: int, email: string, role: Role)

  /** UserResponseDTO's output. */
  datatype UserResponse = UserResponse(id: int, email: string, role: Role)

  /** UserResponseDTO.parse: the e-mail must match zod's pattern, and is then
      trimmed and lowercased; the role is one of the two enum values by
      construction. */
  function ParseUserResponse(u: UserBasic, isEmail: string -> bool): (r: Result<UserResponse, Issue>)
    ensures r.Ok? <==> isEmail(u.email)
    ensures r.Ok? ==> r.value == UserResponse(u.id, Text.ToLower(Text.Trim(u.email)), u.role)
    ensures r.Err? ==> r.error == Issue(["email"], InvalidEmailMessage)
  {
    EmailStepsResult(u.email, isEmail, InvalidEmailMessage);
    var email :- StringField(Some(JStr(u.email)), ["email"], None, EmailSteps(isEmail, InvalidEmailMessage));
    Ok(UserResponse(u.id, email, u.role))
  }

  // ---------------------------------------------------------------------
  // Restaurants
  // ---------------------------------------------------------------------

  /** RestaurantListItemDTO: RestaurantDTO picked down to six fields. */
  datatype ListItem = ListItem(
    id: int,
    name: string,
    neighborhood: Nullable<string>,
    cuisineType: Nullable<string>,
    rating: real,
    image: Nullable<string>)

  function ToListItem(x: Rated): ListItem {
    ListItem(x.row.id, x.row.name, x.row.neighborhood, x.row.cuisineType, x.rating, x.row.image)
  }

  /** RestaurantDetailDTO: RestaurantDTO plus the optional operating hours. */
  datatype Detail = Detail(restaurant: Rated, operatingHours: Option<seq<RestaurantDto.HoursEntry>>)

  // ---------------------------------------------------------------------
  // Reviews
  // ---------------------------------------------------------------------

  /** UserReviewDTO: a review with the name of its restaurant. */
  datatype UserReview = UserReview(review: ReviewRow, restaurantName: string)

  /** RestaurantReviewDTO: a review with its author's e-mail. */
  datatype RestaurantReview = RestaurantReview(review: ReviewRow, userEmail: string)

  /** The position of the first review whose author e-mail fails zod's
      pattern, or the length when there is none. */
  function FirstBadEmail(rows: seq<RestaurantReview>, isEmail: string -> bool): (k: nat)
    ensures k <= |rows|
    ensures forall j :: 0 <= j < k ==> isEmail(rows[j].userEmail)
    ensures k < |rows| ==> !isEmail(rows[k].userEmail)
  {
    if rows == [] then 0
    else if !isEmail(rows[0].userEmail) then 0
    else 1 + FirstBadEmail(rows[1..], isEmail)
  }

  /** RestaurantReviewListDTO.parse: the list is returned as it is when every
      `user_email` is a valid e-mail; otherwise the first issue names the
      first offending element. */
  function ParseRestaurantReviews(rows: seq<RestaurantReview>, isEmail: string -> bool): (r: Result<seq<RestaurantReview>, Issue>)
    ensures r.Ok? <==> forall i :: 0 <= i < |rows| ==> isEmail(rows[i].userEmail)
    ensures r.Ok? ==> r.value == rows
    ensures r.Err? ==> exists k :: (0 <= k < |rows| && !isEmail(rows[k].userEmail)
      && (forall j :: 0 <= j < k ==> isEmail(rows[j].userEmail))
      && r.error == Issue([Text.NatToString(k), "user_email"], InvalidEmailMessage))
  {
    var k := FirstBadEmail(rows, isEmail);
    if k == |rows| then Ok(rows)
    else Err(Issue([Text.NatToString(k), "user_email"], InvalidEmailMessage))
  }

  // ---------------------------------------------------------------------
  // Admin statistics
  // ---------------------------------------------------------------------

  /** TopRatedRestaurantDTO: `avgRating` is null for a restaurant without
      reviews. */
  datatype TopRated = TopRated(
    id: int,
    name: string,
    cuisineType: Nullable<string>,
    neighborhood: Nullable<string>,
    avgRating: Nullable<real>)

  /** MostReviewedRestaurantDTO */
  datatype MostReviewed = MostReviewed(id: int, name: string, cuisineType: Nullable<string>, reviews: nat)

  /** AdminStatsDTO: exactly these five fields. */
  datatype AdminStats = AdminStats(
    usersCount: nat,
    reviewsCount: nat,
    restaurantsCount: nat,
    topRated: seq<TopRated>,
    mostReviewed: seq<MostReviewed>)
}
