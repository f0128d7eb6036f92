# Restaurant directory API — a Dafny model

This project models the core of a restaurant directory web service: an
Express application over a SQLite database. Anyone may browse restaurants,
read one restaurant with its opening hours, and read its reviews.
Registered users sign up and log in with an e-mail and a password, which
gives them a JWT bearer token. With it they can:

- write one review per restaurant, then edit or delete their own reviews;
- keep a list of favourite restaurants.

Administrators create, update and delete restaurants, and read dashboard
statistics.

The model follows the source's layers, one Dafny module per source file:

- **Database.** The SQLite database is a `Tables.Database` object. Its
  fields are the five tables (users, restaurants, operating hours, reviews,
  favourites) and their next row ids. `Tables.Valid` states the schema's
  keys and uniqueness constraints.
- **Repositories.** Each repository is a module. Its queries are functions
  of the tables. Its statements are methods that change the database, and
  each method's `ensures` gives the new state exactly.
- **Services.** Services check existence and ownership, raise the
  `AppError`s of `src/errors/appError.ts`, and run multi-statement
  transactions. A transaction is all-or-nothing: a failing statement is an
  `Option<nat>` parameter, and the method restores the old state.
- **Request validation.** The zod schemas of `src/dto/*.ts` are decoders
  from `Json` to a `Result`. They report the first issue zod would report,
  with the same path and message key. String lengths in `.min` and `.max` are
  JavaScript's `length`, in UTF-16 code units (`Text.JsLength`): a
  character above U+FFFF counts twice.
- **Middleware.**
  - `validateBody`/`validateQuery`/`validateParams`;
  - `authMiddleware` and `roleMiddleware`;
  - the 30-second response cache;
  - the error handler;
  - the i18n catalogue with its English fallback.
  They operate on `Http.Request` and `Http.Reply` objects in place, as Express does.
- **Routes.** Every route of `src/routes/*.ts` is a method. It runs the
  route's middleware chain, then its handler, against the database, the
  cache and the reply. It is proved against a specification function for
  its gates, plus the service's contract.

Behaviours the code has that a reader might not expect are modelled as
written, and some are proved as lemmas:

- `sort=name:DESC` sorts ascending, because the direction comparison is
  case-sensitive.
- The response cache also stores the error envelopes it sees. A 404 is
  therefore replayed, within 30 seconds, as a 200 with the error body.
- The denial messages of the auth middleware are translated twice; the
  second translation is the identity.
- Login answers with the full user row, password hash included.
- Updating a restaurant always deletes its opening hours, even when the
  update gives no new ones.

The database engine's own behaviour is taken in its simplest deterministic
form:

- rows come back in insertion (rowid) order unless the query sorts;
- `AVG` is the exact mean of the ratings;
- a `LIMIT` takes the first rows of the sorted result;
- ids are never reused: each table keeps a counter that only grows, as with SQLite's `AUTOINCREMENT`.

Hashing, token signing and verification, the e-mail regular expression, the
clock and the cache's own failures are parameters of the operations that
use them.

## Model

| member | source | states |
|---|---|---|
| Tables.RoleName | src/repositories/authRepository.ts:9 | a role is stored as one of the two strings the schema allows, "USER" or "ADMIN" |
| Tables.AvgRating | src/repositories/restaurantRepository.ts:45-49 | the per-restaurant AVG(rating) is NULL exactly when the restaurant has no review |
| Tables.RatingOf | src/repositories/restaurantRepository.ts:69 | COALESCE(avg_rating, 0): 0 for an unreviewed restaurant, otherwise the non-null average |
| Tables.RatingInRange | src/repositories/restaurantRepository.ts:43-50 | when every review rating is between 1 and 5, a reviewed restaurant's rating lies in [1, 5] and an unreviewed one's is 0 |
| Tables.RatingSumBounds | src/repositories/restaurantRepository.ts:45-49 | the sum of a restaurant's ratings lies between its review count and five times it |
| Tables.Database.constructor | src/db/db.ts:10 | a fresh database has empty tables that satisfy the schema's invariants |
| Tables.Database.Restore | src/services/restaurantAdminService.ts:49-70 | a rolled-back transaction puts back exactly the state it started from |
| Tables.AppendUserValid | src/repositories/authRepository.ts:25-31 | inserting a user with the next id and an unused e-mail keeps the keys and the unique e-mail constraint |
| Tables.AppendReviewValid | src/repositories/reviewRepository.ts:106-132 | inserting a review with the next id, for a pair (user, restaurant) that has none yet, keeps the one-review-per-pair constraint |
| RestaurantRepository.AllRated | src/repositories/restaurantRepository.ts:56-76 | every restaurant row is paired with its COALESCE'd average rating, one entry per row and in row order |
| RestaurantRepository.LeOfIsTotalPreorder | src/repositories/restaurantRepository.ts:72 | each ORDER BY clause the service builds (name, rating, cuisine type or neighbourhood, ascending or descending) is a total preorder, so sorting by it is well defined |
| RestaurantRepository.Ordered | src/repositories/restaurantRepository.ts:72 | the ordered result is a permutation of the matching rows, and it is sorted by the requested clause when there is one |
| RestaurantRepository.ListRestaurants | src/repositories/restaurantRepository.ts:19-86 | the listing reports the total count of matching rows, the requested limit, and page offset/limit + 1; its data is the window [offset, offset + limit) of the ordered matches, each row taken from the database with its rating, satisfying the filters |
| RestaurantRepository.PageRowsSelected | src/repositories/restaurantRepository.ts:56-76 | every row of a page is a matching row, and a page of a sorted listing is itself sorted |
| RestaurantRepository.FinalWhereHolds | src/repositories/restaurantRepository.ts:34-41 | a row that passes the final WHERE passes every service condition and, when a rating filter is given, has a rating at least that threshold |
| RestaurantRepository.PageRoundTrip | src/repositories/restaurantRepository.ts:83 | the reported page recovers the requested page from offset = (page - 1) * limit |
| RestaurantRepository.UnreviewedPassesOnlyZero | src/repositories/restaurantRepository.ts:39 | because of COALESCE, an unreviewed restaurant passes the rating filter exactly when the threshold is 0 or less |
| RestaurantRepository.FindRestaurantById | src/repositories/restaurantRepository.ts:88-121 | undefined exactly when no row has the id; otherwise the row with that id, its average rating, and its opening hours |
| RestaurantRepository.HoursInIdOrder | src/repositories/restaurantRepository.ts:108-115 | a restaurant's hours come back in ascending id order (ORDER BY id) |
| RestaurantRepository.RestaurantExists | src/repositories/restaurantRepository.ts:123-125 | true exactly when some restaurant row has the id |
| ReviewRepository.UserHasReview | src/repositories/reviewRepository.ts:25-37 | true exactly when the user already has a review of the restaurant |
| ReviewRepository.FindUserReview | src/repositories/reviewRepository.ts:53-64 | undefined exactly when no review has both the id and the user; otherwise that review |
| ReviewRepository.FindReviewById | src/repositories/reviewRepository.ts:134-142 | undefined exactly when no review has the id; otherwise that review |
| ReviewRepository.JoinRestaurants | src/repositories/reviewRepository.ts:39-51 | the inner join keeps exactly the reviews whose restaurant exists and attaches the name of the restaurant with that id; reviews in id order stay in id order, so none appears twice |
| ReviewRepository.JoinUsers | src/repositories/reviewRepository.ts:90-104 | the inner join keeps exactly the reviews whose author exists and attaches the e-mail of the user with that id; reviews in id order stay in id order, so none appears twice |
| ReviewRepository.NewerFirstIsTotalPreorder | src/repositories/reviewRepository.ts:47 | ORDER BY created_at DESC is a total preorder on both kinds of review listing |
| ReviewRepository.ListReviewsByUser | src/repositories/reviewRepository.ts:39-51 | newest first, a permutation of the joined rows; only that user's reviews, each once, each with its restaurant's name as restaurant_name, and every one of them whose restaurant still exists |
| ReviewRepository.ListReviewsForRestaurant | src/repositories/reviewRepository.ts:90-104 | newest first, a permutation of the joined rows; only that restaurant's reviews, each once, each with its author's e-mail as user_email, and every one of them whose author still exists |
| ReviewRepository.InsertReview | src/repositories/reviewRepository.ts:106-132 | a second review of the same restaurant by the same user is reported DUPLICATE and changes nothing; otherwise one review row with the next id and the given rating, comments and time is appended; a storage error changes nothing |
| ReviewRepository.ApplyReviewSets | src/repositories/reviewRepository.ts:66-82 | the dynamic SET list never changes a review's id, author or restaurant |
| ReviewRepository.ReviewSetsMeaning | src/repositories/reviewRepository.ts:66-82 | the SET list writes the rating and, only when comments were given (null included), the comments |
| ReviewRepository.UpdateReview | src/repositories/reviewRepository.ts:66-82 | only the review with the id changes, to the new rating and (when given) comments; every other row and table is untouched |
| ReviewRepository.DeleteReview | src/repositories/reviewRepository.ts:84-88 | exactly the rows with that review id are removed, other tables untouched |
| ReviewRepository.DeletedReviewGone | src/repositories/reviewRepository.ts:84-88 | after the delete no kept row carries the review id, and a row is kept exactly when it was there and has another id |
| ReviewRepository.DeleteForRestaurant | src/repositories/reviewRepository.ts:144-147 | exactly the restaurant's reviews are removed |
| FavoriteRepository.FavoriteExists | src/repositories/favoriteRepository.ts:7-19 | true exactly when the (user, restaurant) pair is a favourite |
| FavoriteRepository.InsertFavorite | src/repositories/favoriteRepository.ts:20-33 | an existing pair is DUPLICATE and changes nothing; otherwise the pair is appended and the answer is OK; a storage error changes nothing |
| FavoriteRepository.DeleteFavorite | src/repositories/favoriteRepository.ts:35-39 | afterwards the pair is no favourite, every other favourite is kept, and deleting an absent pair changes nothing |
| FavoriteRepository.AbsentPairDeletesNothing | src/repositories/favoriteRepository.ts:35-39 | deleting a pair that is not stored leaves the favourites as they were |
| FavoriteRepository.JoinRestaurants | src/repositories/favoriteRepository.ts:41-67 | the join returns existing restaurants with their COALESCE'd rating, one per favourite that points at an existing restaurant |
| FavoriteRepository.JoinDistinct | src/repositories/favoriteRepository.ts:41-67 | favourites naming distinct restaurants join to rows with distinct restaurant ids |
| FavoriteRepository.ListFavoritesByUser | src/repositories/favoriteRepository.ts:41-67 | exactly the user's favourite restaurants that exist, each with its average rating; on valid tables no restaurant is listed twice |
| FavoriteRepository.DeleteForRestaurant | src/repositories/favoriteRepository.ts:69-72 | every favourite of the restaurant is removed and no other |
| OperatingHoursRepository.InsertHours | src/repositories/operatingHoursRepository.ts:6-11 | one hours row with the next id, the restaurant, day and hours is appended |
| OperatingHoursRepository.DeleteForRestaurant | src/repositories/operatingHoursRepository.ts:13-16 | every hours row of the restaurant is removed and no other |
| OperatingHoursRepository.ListByRestaurant | src/repositories/operatingHoursRepository.ts:18-22 | the (day, hours) pairs listed are exactly those stored for the restaurant, in row order, one per matching row |
| AuthRepository.FindUserByEmail | src/repositories/authRepository.ts:14-18 | undefined exactly when no user has the e-mail; otherwise that user's full row |
| AuthRepository.EmailExists | src/repositories/authRepository.ts:20-23 | true exactly when some user has the e-mail |
| AuthRepository.CreateUser | src/repositories/authRepository.ts:25-31 | a new USER row with the next id, the name, e-mail and hash is appended; a taken e-mail violates the UNIQUE constraint and changes nothing |
| AuthRepository.FindUserBasic | src/repositories/authRepository.ts:33-39 | undefined exactly when the e-mail is unknown; otherwise the id and role of the user with that e-mail |
| AuthRepository.EmailFindsTheOnlyRow | src/repositories/authRepository.ts:14-18 | with e-mails unique, the lookup returns the one user who has the e-mail |
| AuthRepository.CreatedUserFound | src/repositories/authRepository.ts:25-39 | after an insert, looking the e-mail up finds exactly the new row and its id and role |
| UserRepository.FindUserById | src/repositories/userRepository.ts:12-20 | undefined exactly when no user has the id; otherwise that user's id, e-mail and role |
| AdminRepository.TopRatedOf | src/repositories/adminRepository.ts:26-31 | a ranking entry carries the restaurant's id and name, and a null average exactly when it has no reviews |
| AdminRepository.HigherAverageIsTotalPreorder | src/repositories/adminRepository.ts:35 | ORDER BY avg_rating DESC, with NULL last, is a total preorder |
| AdminRepository.AllTopRated | src/repositories/adminRepository.ts:26-34 | the grouped query yields exactly one entry per restaurant: as many entries as restaurants, the i-th being the i-th restaurant's group |
| AdminRepository.GetTopRated | src/repositories/adminRepository.ts:22-40 | min(3, number of restaurants) entries, best average first, a sub-multiset of the groups, so no restaurant twice |
| AdminRepository.TopRatedBeatsTheRest | src/repositories/adminRepository.ts:35-36 | every restaurant left out of the top three ranks no higher than each one kept |
| AdminRepository.MoreReviewsIsTotalPreorder | src/repositories/adminRepository.ts:57 | ORDER BY reviews DESC is a total preorder |
| AdminRepository.AllMostReviewed | src/repositories/adminRepository.ts:49-56 | the grouped query yields exactly one entry per restaurant: as many entries as restaurants, the i-th being the i-th restaurant's group |
| AdminRepository.GetMostReviewed | src/repositories/adminRepository.ts:45-62 | min(3, number of restaurants) entries, most reviews first, a sub-multiset of the groups, so no restaurant twice |
| AdminRepository.MostReviewedBeatsTheRest | src/repositories/adminRepository.ts:57-58 | every restaurant left out has no more reviews than each one kept |
| AdminRepository.GetStats | src/repositories/adminRepository.ts:64-72 | the three counts are the table sizes and the two rankings are the top-three queries |
| RestaurantAdminRepository.InsertRestaurant | src/repositories/restaurantAdminRepository.ts:6-36 | the new row gets the next id (a fresh, positive id) and exactly the given columns; nothing else changes |
| RestaurantAdminRepository.ApplyAll | src/repositories/restaurantAdminRepository.ts:49-91 | no SET clause changes the row's id |
| RestaurantAdminRepository.PushesMeaning | src/repositories/restaurantAdminRepository.ts:52-83 | the clauses pushed for the first k columns assign exactly the given ones among them, and none is pushed when none is given |
| RestaurantAdminRepository.AssignmentsMeaning | src/repositories/restaurantAdminRepository.ts:49-87 | applying the SET list revises exactly the columns that are not undefined (null counts as given), and the list is empty exactly when nothing is given |
| RestaurantAdminRepository.SetList | src/repositories/restaurantAdminRepository.ts:49-83 | the eight ifs build exactly AssignmentsOf(p), one `column = ?` per given column in argument order, and the list is empty exactly when no column is given |
| RestaurantAdminRepository.SetListMeaning | src/repositories/restaurantAdminRepository.ts:85-91 | running UPDATE ... WHERE id=? with the built list revises the row with the id as the patch says |
| RestaurantAdminRepository.NothingGivenKeepsRows | src/repositories/restaurantAdminRepository.ts:85-87 | with nothing given the statement is skipped and every row is kept |
| RestaurantAdminRepository.UpdateRestaurant | src/repositories/restaurantAdminRepository.ts:38-92 | the row with the id has its given columns replaced, every other row and table is unchanged |
| RestaurantAdminRepository.DeleteRestaurant | src/repositories/restaurantAdminRepository.ts:94-96 | exactly the row with the id is removed |
| RestaurantService.FieldNamed | src/services/restaurantService.ts:48-50 | a field other than rating, cuisine_type and neighborhood sorts by name |
| RestaurantService.SortClause | src/services/restaurantService.ts:45-53 | no ORDER BY without a sort; otherwise the field before ':' (name when unknown), descending exactly when the part after ':' is the lower-case "desc" |
| RestaurantService.NameDescSortsAscending | src/services/restaurantService.ts:52 | "name:DESC" passes the query schema yet is sorted ascending |
| RestaurantService.UnknownFieldSortsByName | src/services/restaurantService.ts:48-52 | any unknown field falls back to name, keeping the requested direction |
| RestaurantService.ListRestaurants | src/services/restaurantService.ts:26-70 | the page is the (page - 1) * limit window of the restaurants matching the cuisine, neighbourhood and rating filters in the requested order, projected to list items, with total, limit and page reported |
| RestaurantService.Offset | src/services/restaurantService.ts:55 | the offset skips the (page - 1) full pages before the requested one |
| RestaurantService.PageReported | src/services/restaurantService.ts:55 | the repository reports back the page that was requested |
| RestaurantService.ConditionsMeanWanted | src/services/restaurantService.ts:29-43 | the WHERE conditions built from the query select exactly the restaurants with the requested cuisine, neighbourhood and minimum rating (empty strings ignored) |
| RestaurantService.GetRestaurantById | src/services/restaurantService.ts:72-78 | RESTAURANT_NOT_FOUND exactly when the restaurant is missing; otherwise its detail with hours |
| RestaurantService.ListReviewsForRestaurant | src/services/restaurantService.ts:80-86 | RESTAURANT_NOT_FOUND for a missing restaurant; otherwise its reviews, or the response schema's e-mail issue when an author's e-mail is malformed |
| RestaurantService.CreateReviewForRestaurant | src/services/restaurantService.ts:88-110 | 404 for a missing restaurant and 409 ALREADY_REVIEWED for a second review change nothing; when a concurrent review lands first its row is in the table and the answer is 409; a storage error of the insert is the rethrown OtherFailure (the 500 INTERNAL_ERROR), and alone it changes nothing; otherwise exactly the new review row is appended and its id returned |
| UserService.GetUserById | src/services/userService.ts:34-41 | USER_NOT_FOUND for an unknown id; otherwise the user's id, role and trimmed e-mail, lower-cased in A–Z, or the schema's issue for a malformed stored e-mail |
| UserService.KnownUserFound | src/services/userService.ts:34-41 | a stored user with a well-formed e-mail is always found, with its own id and role |
| UserService.ListReviewsByUser | src/services/userService.ts:43-47 | newest first, only the user's reviews, each once and with its restaurant's name, and all of those whose restaurant exists |
| UserService.UpdateUserReview | src/services/userService.ts:49-67 | REVIEW_NOT_FOUND, changing nothing, unless the review is the caller's; then only that review's rating and comments change and its id is returned |
| UserService.OnlyOwnReviewAddressed | src/services/userService.ts:54-58 | once the ownership check passes, every review with that id belongs to the caller |
| UserService.DeleteUserReview | src/services/userService.ts:69-79 | REVIEW_NOT_FOUND, changing nothing, unless the review is the caller's; then exactly that review is gone |
| UserService.AddFavorite | src/services/userService.ts:81-101 | 404 for a missing restaurant and 409 ALREADY_FAVORITE for a saved pair change nothing; when a concurrent insert lands first the pair is in the table and the answer is 409; a storage error changes nothing; otherwise exactly the pair is added and the restaurant id returned |
| UserService.RemoveFavorite | src/services/userService.ts:103-109 | always answers the restaurant id; afterwards the pair is not a favourite and nothing else changed |
| UserService.RemoveIsIdempotent | src/services/userService.ts:103-109 | removing a favourite twice is the same as removing it once |
| UserService.AddThenRemove | src/services/userService.ts:81-109 | removing a just-added favourite restores the favourites exactly |
| UserService.ListFavoritesByUser | src/services/userService.ts:111-115 | the user's existing favourite restaurants with their ratings, and only those; on valid tables no restaurant is listed twice |
| AuthService.ExpiresIn | src/utils/jwt.ts:17 | a configured non-zero JWT_EXPIRES_IN wins; a missing or zero one falls back to 604800 seconds |
| AuthService.DisplayName | src/services/authService.ts:27 | an empty name falls back to the e-mail's part before '@' |
| AuthService.RegisterUser | src/services/authService.ts:16-41 | a taken (normalised) e-mail is 409 and changes nothing; when a concurrent registration of the e-mail lands first its USER row is in the table and the answer is an error; otherwise one USER row with the next id is appended and a token for that id and role is returned with the expiry |
| AuthService.RegisteredRowFound | src/services/authService.ts:27-34 | after registration the e-mail lookup finds the new row, so the 500 USER_CREATION_FAILED branch cannot be taken |
| AuthService.LoginUser | src/services/authService.ts:43-63 | INVALID_CREDENTIALS for an unknown e-mail and for a wrong password alike; on success the stored row of that e-mail whose hash matches the trimmed password, a token for its id and role, and the expiry |
| AuthService.RegisterThenLogin | src/services/authService.ts:16-63 | logging in with the registered e-mail and password after registering succeeds and returns the new row |
| AuthService.LoginOfKnownUser | src/services/authService.ts:43-63 | for a known e-mail, login succeeds exactly when the password matches, and returns that user |
| AuthService.SecondRegistrationRefused | src/services/authService.ts:21-23 | a second registration with the same normalised e-mail finds it taken |
| AdminService.GetAdminStats | src/services/adminService.ts:13-28 | the counts and rankings of the database, or 500 ADMIN_STATS_ERROR exactly when a query fails |
| AdminService.RankingsCoverTheCount | src/services/adminService.ts:13-23 | both rankings have min(3, restaurants) entries and name existing restaurants |
| RestaurantAdminService.HoursToInsert | src/services/restaurantAdminService.ts:61-65 | the hours inserted are the given list, or none when hours are absent |
| RestaurantAdminService.HoursRows | src/services/restaurantAdminService.ts:62-64 | one hours row per entry, with consecutive ids, in the given order |
| RestaurantAdminService.InsertEach | src/services/restaurantAdminService.ts:107-111 | the loop inserts every entry in order, unless one of its statements fails |
| RestaurantAdminService.CreateRestaurant | src/services/restaurantAdminService.ts:36-73 | the transaction inserts the restaurant and its hours and returns the new id; any failing statement rolls everything back |
| RestaurantAdminService.CreatedListsItsHours | src/services/restaurantAdminService.ts:49-68 | a created restaurant is found under its new id and lists exactly the hours given |
| RestaurantAdminService.OwnHours | src/services/restaurantAdminService.ts:62-64 | the hours rows inserted for a restaurant list back exactly the entries given |
| RestaurantAdminService.UpdateRestaurant | src/services/restaurantAdminService.ts:75-117 | 404 for a missing restaurant; otherwise the patch is applied, the hours are deleted and the given ones inserted, all or nothing |
| RestaurantAdminService.UpdateReplacesHours | src/services/restaurantAdminService.ts:105-111 | after an update the restaurant's hours are exactly the given ones, none when hours are absent, and no other restaurant's hours change |
| RestaurantAdminService.HoursOfAppend | src/repositories/operatingHoursRepository.ts:18-22 | listing hours distributes over appended rows |
| RestaurantAdminService.OtherHoursKept | src/services/restaurantAdminService.ts:105-111 | deleting one restaurant's hours and inserting new ones for it leaves every other restaurant's hours as they were |
| RestaurantAdminService.UpdateRevisesOnlyItsRow | src/services/restaurantAdminService.ts:93-103 | the update revises only the row with the id, giving it each given column, and keeps the others |
| RestaurantAdminService.DeleteRestaurant | src/services/restaurantAdminService.ts:119-134 | 404 for a missing restaurant; otherwise its reviews, favourites, hours and row are deleted together, or nothing when a statement fails |
| RestaurantAdminService.DeleteStatements | src/services/restaurantAdminService.ts:124-129 | the four statements, run in order, delete the restaurant and everything that refers to it |
| RestaurantAdminService.DeletedLeavesNoTrace | src/services/restaurantAdminService.ts:124-129 | after deletion nothing refers to the restaurant, every other row is kept and the users are untouched |
| RestaurantDto.DecodeRestaurantsQuery | src/dto/restaurantDTO.ts:3-31 | accepted exactly when the query is an object and page, limit and every filter parse on their own; the result is those fields' values; a page issue is reported first; page >= 1, limit in [1, 100], trimmed filters within 100 UTF-16 code units, a rating in [0, 5] and a well-formed sort; page defaults to 1 and limit to 10 |
| RestaurantDto.DecodeQueryFilters | src/dto/restaurantDTO.ts:17-30 | accepted exactly when each filter field parses on its own; the result holds each field's own parse and keeps the page and limit already parsed; a cuisine_type issue is reported first; every parsed filter is within its bound |
| RestaurantDto.EmptyQueryDefaults | src/dto/restaurantDTO.ts:3-31 | an empty query string parses to page 1, limit 10 and no filters |
| RestaurantDto.LimitAboveMaximumRejected | src/dto/restaurantDTO.ts:10-15 | a limit above 100 is refused with INVALID_LIMIT |
| RestaurantDto.LimitFieldAboveMaximum | src/dto/restaurantDTO.ts:10-15 | the limit field alone refuses a value above 100 with INVALID_LIMIT |
| RestaurantDto.LimitChecksRefuse | src/dto/restaurantDTO.ts:10-15 | an integer above 100 passes the integer check and fails the maximum, with INVALID_LIMIT |
| RestaurantDto.PageZeroRejected | src/dto/restaurantDTO.ts:4-8 | page=0 is refused with INVALID_PAGE |
| RestaurantDto.DecodeHoursEntry | src/dto/restaurantDTO.ts:47-50 | accepted exactly when the entry is an object whose day and hours each parse; the result is those two parses; a day within 20 and hours within 100 UTF-16 code units; an issue is reported under hours.i |
| RestaurantDto.HoursEntryTrimmed | src/dto/restaurantDTO.ts:47-50 | an entry is accepted exactly when its day and hours are strings of at most 20 and 100 code units once trimmed, and it is kept trimmed |
| RestaurantDto.DecodeHoursFrom | src/dto/restaurantDTO.ts:45-52 | a parsed list has one entry per element, in order, each the element's own parse (EachParses); an issue is reported under hours |
| RestaurantDto.DecodeHours | src/dto/restaurantDTO.ts:45-52 | absent hours are fine; a non-array is a type issue; a parsed list has one entry per array element, each that element's own parse, all within bounds |
| RestaurantDto.HoursAccepted | src/dto/restaurantDTO.ts:45-52 | present hours are accepted exactly when they are an array whose every element parses as an entry at its index |
| RestaurantDto.HoursFromAccepted | src/dto/restaurantDTO.ts:45-52 | if every element parses as an entry at its index, the whole array parses |
| RestaurantDto.EachParsesAt | src/dto/restaurantDTO.ts:45-52 | a list built element by element holds, at each index, that element's own parse |
| RestaurantDto.DecodeName | src/dto/restaurantDTO.ts:34 | a string name is accepted exactly when its untrimmed length in UTF-16 code units is between 1 and 200, and the trimmed name is kept; a missing name is NAME_REQUIRED unless the schema is partial |
| RestaurantDto.EmojiNameTooLong | src/dto/restaurantDTO.ts:34 | a name of 150 emoji, 300 code units, is refused with NAME_TOO_LONG |
| RestaurantDto.DecodeRestaurantBody | src/dto/restaurantDTO.ts:33-55 | accepted exactly when the body is an object whose name and other fields each parse; the result is those fields' parses; a name issue is reported first; every length and range bound holds, and there is a name unless the schema is partial |
| RestaurantDto.DecodeOtherFields | src/dto/restaurantDTO.ts:36-52 | accepted exactly when every field after the name parses on its own; the result is those fields' parses with the name already parsed; a neighborhood issue is reported first; every field is within its schema bound |
| RestaurantDto.UpdateIsPartialCreate | src/dto/restaurantDTO.ts:55 | the update schema agrees with the create schema whenever a name is given, and otherwise leaves the name out where the create schema asks for it |
| RestaurantDto.BlankNameBecomesEmpty | src/dto/restaurantDTO.ts:34 | because min(1) is checked before trim, a name of one space is accepted and stored empty |
| RestaurantDto.DecodeRestaurantParams | src/dto/restaurantDTO.ts:57-62 | an accepted restaurant_id is a positive integer, coerced from the path string |
| FavoriteDto.IdCoercedFromPath | src/dto/favoriteDTO.ts:3-7 | a path parameter spelling a positive integer k is accepted as k |
| FavoriteDto.NonIntegerIdRejected | src/dto/favoriteDTO.ts:3-7 | a fractional id is refused with zod's integer message |
| FavoriteDto.NonPositiveIdRejected | src/dto/favoriteDTO.ts:3-7 | an id of 0 or less is refused with INVALID_RESTAURANT_ID |
| FavoriteDto.OtherKeysIgnored | src/dto/favoriteDTO.ts:3-7 | other path parameters do not affect the result |
| ReviewDto.DecodeReviewBody | src/dto/reviewDTO.ts:3-10 | accepted exactly when the body is an object whose rating and comments each parse; the result is those two parses; a rating issue is reported first; an integer rating in [1, 5], coerced from the body, and trimmed comments within 5000 UTF-16 code units; a missing or non-numeric rating is refused |
| ReviewDto.RatingRequired | src/dto/reviewDTO.ts:4-7 | a body without a rating is refused at the rating |
| ReviewDto.RatingFromDigits | src/dto/reviewDTO.ts:4-7 | a rating sent as the digits of 1 to 5 is accepted as that number |
| ReviewDto.DecodeReviewParams | src/dto/reviewDTO.ts:21-25 | an accepted review_id is a positive integer |
| ReviewDto.NonPositiveReviewIdRejected | src/dto/reviewDTO.ts:21-25 | an integer review_id of 0 or less is refused with INVALID_REVIEW_ID |
| AuthDto.DecodeEmail | src/dto/authDTO.ts:4-8 | accepted exactly when the string passes the e-mail check, and kept trimmed and lower-cased in A–Z; otherwise an issue at email (INVALID_EMAIL, or Required when missing) |
| AuthDto.DecodePassword | src/dto/authDTO.ts:10-17 | accepted exactly when the untrimmed password passes length 8 to 128 and the upper-case, lower-case and digit checks, and kept trimmed; otherwise the first failing check's message |
| AuthDto.PasswordChecksInOrder | src/dto/authDTO.ts:10-17 | the password's first reported failure follows the order of the checks |
| AuthDto.DecodeRegisterName | src/dto/authDTO.ts:19-23 | accepted exactly when 1 to 200 UTF-16 code units before trimming, and kept trimmed |
| AuthDto.DecodeLoginPassword | src/dto/authDTO.ts:33-35 | accepted exactly when non-empty, and kept as sent |
| AuthDto.DecodeRegister | src/dto/authDTO.ts:3-24 | accepted exactly when the body is an object with only the three keys whose e-mail, password and name each parse; a checked and normalised e-mail, a checked trimmed password and a trimmed name |
| AuthDto.RegisterIsStrict | src/dto/authDTO.ts:24 | an unknown key makes the registration fail |
| AuthDto.MissingEmailReportedFirst | src/dto/authDTO.ts:4-8 | a missing e-mail is reported before any other issue |
| AuthDto.ShortPasswordReportedFirst | src/dto/authDTO.ts:11-12 | with a valid e-mail, a password under 8 UTF-16 code units is reported as PASSWORD_TOO_SHORT |
| AuthDto.RegisterStopsAtPassword | src/dto/authDTO.ts:10-17 | with a valid e-mail, a bad password is the issue reported |
| AuthDto.DecodeLogin | src/dto/authDTO.ts:26-36 | a parsed login has a checked, normalised e-mail and the non-empty password as sent; with a valid e-mail it is accepted exactly when the password is a non-empty string |
| ResponseDto.ParseUserResponse | src/dto/responseDTO.ts:6-10 | accepted exactly when the stored e-mail passes the e-mail check, and then trimmed and lower-cased in A–Z |
| ResponseDto.ParseRestaurantReviews | src/dto/responseDTO.ts:83-87 | accepted unchanged exactly when every author e-mail passes the check; otherwise the issue names row k's user_email, where row k is the first bad row (every earlier row passes) |
| Zod.TypeMessage | src/dto/restaurantDTO.ts:48 | zod reports "Required" exactly when the value is missing |
| Zod.Coerce | src/dto/restaurantDTO.ts:59 | z.coerce.number keeps a JSON number and turns a missing value into NaN |
| Zod.ParseNatString | src/dto/restaurantDTO.ts:59 | the decimal spelling of k coerces to k |
| Zod.FirstNumFailure | src/dto/restaurantDTO.ts:10-15 | the message reported is that of the first failing check, and there is none exactly when all checks pass |
| Zod.StringField | src/dto/authDTO.ts:10-17 | a string field is accepted exactly when the chain of checks and transforms passes, and yields the transformed string |
| Zod.CoercedNumberField | src/dto/restaurantDTO.ts:21-25 | accepted exactly when the coerced value is a number passing all checks, and yields that number |
| Zod.StrictNumberField | src/dto/restaurantDTO.ts:42 | accepted exactly when the value is a JSON number passing all checks |
| Zod.OptionalNullableString | src/dto/restaurantDTO.ts:36 | missing is undefined, null is null, and a string goes through the chain |
| Zod.OptionalString | src/dto/restaurantDTO.ts:27-30 | missing is allowed; a present value is checked as the plain string field |
| Zod.OptionalStrictNumber | src/dto/restaurantDTO.ts:42-43 | missing is allowed; a present value must be a JSON number passing all checks |
| Zod.OptionalCoercedNumber | src/dto/restaurantDTO.ts:21-25 | missing is allowed; a present value is coerced and must pass all checks |
| Zod.CoercedInt | src/dto/reviewDTO.ts:4-7 | accepted exactly when the coerced value is an integer passing all checks, and yields it |
| Zod.DefaultedInt | src/dto/restaurantDTO.ts:4-8 | a missing value takes the default, a present one is checked as a coerced integer |
| Zod.PositiveId | src/dto/restaurantDTO.ts:57-62 | accepted exactly when the coerced value is a positive integer |
| Zod.PositiveIdOfDigits | src/dto/restaurantDTO.ts:57-62 | the decimal spelling of a positive k is accepted as k |
| Zod.TrimThenMax | src/dto/restaurantDTO.ts:17 | trim followed by max(n) checks the length of the trimmed string, in UTF-16 code units |
| Zod.MaxThenTrim | src/dto/authDTO.ts:19-23 | a length check before trim looks at the untrimmed string |
| Zod.MinMaxThenTrim | src/dto/restaurantDTO.ts:34 | min then max then trim checks the untrimmed length and yields the trimmed string |
| Zod.TrimmedText | src/dto/restaurantDTO.ts:36-40 | an optional, nullable, trimmed string within n UTF-16 code units |
| Zod.TrimmedRequired | src/dto/restaurantDTO.ts:48-49 | a required string whose trimmed length is within n |
| Zod.ChecksThenRest | src/dto/authDTO.ts:10-17 | a run of checks before the transforms reports their first failure and otherwise continues with the rest |
| Zod.TrimThenLower | src/dto/authDTO.ts:7-8 | trim then toLowerCase (A–Z) never fails and normalises the string |
| Zod.EmailStepsResult | src/dto/authDTO.ts:4-8 | the e-mail chain fails exactly when the e-mail check does, and yields the trimmed string lower-cased in A–Z |
| AppErrors.NewAppError | src/errors/appError.ts:6-16 | the error keeps its message and details; status defaults to 400 and code to BAD_REQUEST |
| AppErrors.DefaultsAreBadRequest | src/errors/appError.ts:8-9 | an error raised with only a message is a 400 BAD_REQUEST |
| ErrorHandler.HandleError | src/errors/errorHandler.ts:8-66 | every answer carries the request id; a zod error is 400 VALIDATION_ERROR, an AppError keeps its status and code with its message translated, a body syntax error is 400 INVALID_JSON, anything else is 500 INTERNAL_ERROR |
| ErrorHandler.RequiredNamesTheField | src/errors/errorHandler.ts:30-31 | a "Required" issue is answered with the translation of REQUIRED followed by the dotted field path |
| ErrorHandler.ValidationMessageTranslated | src/errors/errorHandler.ts:34-36 | any other zod issue is answered with its message key translated |
| I18n.LangFromHeader | src/i18n.ts:185-194 | Spanish exactly when Accept-Language starts with "es" in any case, French exactly when with "fr", English otherwise |
| I18n.Translator | src/i18n.ts:196-199 | the request's translation function is the catalogue lookup of its language |
| I18n.CatalogsShareKeys | src/i18n.ts:5-183 | the three catalogues translate the same keys, so the fallback to English never fires for a known key |
| I18n.EnglishCases | src/i18n.ts:196-199 | in English a known key gives the English text; any other string comes back unchanged |
| I18n.SpanishCases | src/i18n.ts:196-199 | in Spanish a known key is in the Spanish catalog and gives its text, never the English fallback; any other string comes back unchanged |
| I18n.FrenchCases | src/i18n.ts:196-199 | in French a known key is in the French catalog and gives its text, never the English fallback; any other string comes back unchanged |
| I18n.NonKeyUnchanged | src/i18n.ts:196-199 | in every language a string that is no catalog key comes back unchanged |
| I18n.FreeTextIsUntranslated | src/i18n.ts:196-199 | each of the six free-text messages the services and routes raise, such as "Restaurant not found", is no key and comes back untranslated in every language |
| AuthMiddleware.BearerToken | src/middleware/auth.ts:26-32 | a token is taken only when the header's first word is exactly "Bearer" and a non-empty second word follows |
| AuthMiddleware.BearerRoundTrip | src/middleware/auth.ts:26-32 | "Bearer <token> ..." yields the token back |
| AuthMiddleware.SchemeIsCaseSensitive | src/middleware/auth.ts:28 | any other scheme, "bearer" included, yields no token |
| AuthMiddleware.SchemeAloneRefused | src/middleware/auth.ts:28 | "Bearer" and "Bearer " alone yield no token |
| AuthMiddleware.Authentication | src/middleware/auth.ts:13-43 | a missing, malformed, invalid or expired token is 401 UNAUTHORIZED; otherwise the token's principal |
| AuthMiddleware.Authenticate | src/middleware/auth.ts:13-43 | the request's user is set to the principal exactly when authentication succeeds; body, query and params are untouched |
| AuthMiddleware.RoleGate | src/middleware/auth.ts:45-61 | no user is 401; a user passes exactly when the role is allowed, and is 403 otherwise |
| AuthMiddleware.Admission | src/middleware/auth.ts:13-61 | authentication failures are 401, a wrong role is 403, and a principal that passes has an allowed role |
| AuthMiddleware.EnglishDenials | src/i18n.ts:9-10 | the English texts are "Unauthorized" and "Forbidden" |
| AuthMiddleware.SpanishDenials | src/i18n.ts:68-69 | the Spanish texts are "No autorizado" and "Prohibido" |
| AuthMiddleware.FrenchDenials | src/i18n.ts:128-129 | the French texts are "Non autorisé" and "Interdit" |
| AuthMiddleware.TranslatedTwice | src/middleware/auth.ts:22 | the middleware translates the key and the error handler translates the result again, which returns it unchanged in every language |
| AuthMiddleware.DeniedReplies | src/middleware/auth.ts:45-61 | a denial reaches the client as 401 UNAUTHORIZED or 403 FORBIDDEN with the text in the request's language and the request id |
| Http.Request.constructor | src/i18n.ts:185-199 | a request carries its headers, id and raw body, query and params, no user yet, and the translator for its Accept-Language |
| Http.Reply.SendEmpty | src/routes/restaurantsAdmin.ts:71 | the reply is sent with the status and no body |
| Validate.Validate | src/middleware/validate.ts:4-38 | a parse that succeeds replaces the slot with the parsed value; one that fails passes the zod issue on and leaves the slot as it was |
| Cache.Find | src/middleware/cache.ts:16-21 | a hit returns the body stored under the URL |
| Cache.AfterJson | src/middleware/cache.ts:23-31 | a body sent by a cached GET is found under its URL for the whole 30-second TTL; a failed write keeps the cache as it was |
| Cache.StoredBodyExpires | src/middleware/cache.ts:6 | a stored body is served up to 30 seconds after storing and expired afterwards |
| Cache.OtherKeysUnaffected | src/middleware/cache.ts:25-27 | storing under one URL does not change what another URL finds |
| Cache.ResponseCache.constructor | src/middleware/cache.ts:6 | the cache starts empty |
| Cache.ResponseCache.Set | src/middleware/cache.ts:25-27 | the entry for the key now holds the body for its TTL, unless the write fails |
| Cache.ResponseCache.Invalidate | src/middleware/cache.ts:45-51 | flushAll empties the cache so that no key hits, unless the flush fails |
| Cache.SendJson | src/middleware/cache.ts:23-31 | the wrapped res.json sends the body and stores it under the URL when the request is cached |
| Cache.CacheMiddleware | src/middleware/cache.ts:8-43 | non-GET requests pass; a failing lookup is 500 CACHE_MIDDLEWARE_ERROR; a hit is answered at once with the stored body and status; a miss wraps res.json to store under the URL |
| Pipeline.Zodded | src/middleware/validate.ts:4-14 | a schema's issue becomes the error passed to next, and a parse its value |
| Pipeline.Reject | src/errors/errorHandler.ts:8-66 | the reply is the error handler's envelope for the failure, and a cached GET stores that envelope |
| Pipeline.Served | src/routes/me.ts:18-25 | a handler's service result is sent wrapped, and a service error is passed on unchanged |
| Pipeline.Lookup | src/middleware/cache.ts:14-21 | the handler runs exactly when the cache neither fails nor hits; otherwise the reply is the hit or the 500 |
| Pipeline.Finish | src/middleware/cache.ts:23-33 | the handler's result or its error envelope is sent and stored under the URL |
| Pipeline.Deliver | src/routes/auth.ts:15-27 | an uncached route sends the service result with the status, or the error envelope, and leaves the cache as it was |
| Pipeline.FlushAndSend | src/routes/restaurantsAdmin.ts:69-71 | the cache is flushed and an empty reply is sent |
| Pipeline.FlushAndRespond | src/routes/restaurantsAdmin.ts:28-30 | the cache is flushed and the body is sent with the status |
| Pipeline.Admit | src/routes/admin.ts:15-16 | runs authMiddleware then roleMiddleware: answers the denial, or records the admitted principal on the request |
| Pipeline.Authenticate | src/routes/restaurants.ts:82 | runs authMiddleware: answers 401, or records the principal on the request |
| Pipeline.Check | src/middleware/validate.ts:4-38 | runs one validator: answers the zod error, or replaces the slot with the parsed value |
| RestaurantRoutes.ListRestaurants | src/routes/restaurants.ts:26-39 | a bad query is a 400 that is not cached; otherwise the cached listing, or the service's page sent with 200 and stored under the URL |
| RestaurantRoutes.GetRestaurant | src/routes/restaurants.ts:44-57 | a bad id is a 400; otherwise the cached answer, or the detail with 200, or the 404 envelope, stored under the URL |
| RestaurantRoutes.ListReviews | src/routes/restaurants.ts:62-75 | a bad id is a 400; otherwise the cached answer, or the reviews with 200, or the 404 envelope, stored under the URL |
| RestaurantRoutes.NotFoundReplayedWithOk | src/middleware/cache.ts:17-21 | asking twice within 30 seconds for a missing restaurant gives a 404 and then a 200 whose body is that 404's error envelope |
| RestaurantRoutes.AskMissing | src/routes/restaurants.ts:44-57 | a request for a missing restaurant is answered from the cache with 200 on a hit, and otherwise 404 with an envelope that is then stored |
| RestaurantRoutes.ReviewGates | src/routes/restaurants.ts:80-84 | the chain authenticates, then validates the id, then the body, and passes exactly when all three do |
| RestaurantRoutes.CreateReview | src/routes/restaurants.ts:80-103 | a failed gate changes neither the tables nor the cache; after the gates the tables are exactly those of the service's createReviewForRestaurant (AfterReview), including a concurrent review that lands first; a missing restaurant, an existing review, a storage error of the insert (OtherFailure, answered 500) and a lost race (409) are answered with their error and keep the cache; a stored review is answered 201 with its id and the cache is flushed |
| RestaurantRoutes.StoreReview | src/routes/restaurants.ts:85-102 | once the request is validated, the tables become exactly AfterReview of the old tables; 404 and 409 keep the cache, a storage error of the insert is answered as OtherFailure (500), a lost race without one is 409, and a stored review is 201 with its id and flushes the cache |
| RestaurantAdminRoutes.CreateGates | src/routes/restaurantsAdmin.ts:21-25 | admission decides before the body is validated; a body that passes has a name |
| RestaurantAdminRoutes.CreateRestaurant | src/routes/restaurantsAdmin.ts:21-35 | a failed gate or a failing statement changes nothing; otherwise 201 with the new id, the restaurant and its hours stored, and the cache flushed |
| RestaurantAdminRoutes.UpdateGates | src/routes/restaurantsAdmin.ts:40-45 | admission, then the id, then the partial body; passes exactly when all three do |
| RestaurantAdminRoutes.UpdateRestaurant | src/routes/restaurantsAdmin.ts:40-56 | 404 for a missing restaurant; otherwise 200 with the id, the patch and hour replacement applied, and the cache flushed; a failing statement changes nothing |
| RestaurantAdminRoutes.DeleteGates | src/routes/restaurantsAdmin.ts:61-65 | admission, then the id |
| RestaurantAdminRoutes.DeleteRestaurant | src/routes/restaurantsAdmin.ts:61-76 | 404 for a missing restaurant; otherwise 204 with the restaurant and everything referring to it deleted and the cache flushed |
| MeRoutes.GetProfile | src/routes/me.ts:18-25 | 401 without a valid token; otherwise the caller's profile with 200, or the service's error; the cache is untouched |
| MeRoutes.GetMyReviews | src/routes/me.ts:30-37 | 401 without a valid token; otherwise the caller's reviews with 200 |
| MeRoutes.GetFavorites | src/routes/me.ts:132-139 | 401 without a valid token; otherwise the caller's favourite restaurants with 200 |
| MeRoutes.AddressedBy | src/routes/me.ts:92-93 | authenticate, then validate the path id; the caller and the id when both pass |
| MeRoutes.EditGates | src/routes/me.ts:44-46 | authenticate, then the review id, then the body |
| MeRoutes.EditReview | src/routes/me.ts:42-64 | someone else's or a missing review is 404 and changes nothing; the caller's own review is rewritten, answered 200 with its id, and the cache flushed |
| MeRoutes.DeleteReview | src/routes/me.ts:69-85 | someone else's or a missing review is 404 and changes nothing; the caller's own review is removed, answered 204, and the cache flushed |
| MeRoutes.SaveFavorite | src/routes/me.ts:90-106 | 404 for a missing restaurant and 409 for a favourite already there change nothing; a concurrent insert that lands first leaves exactly the pair added and is 409; otherwise 201 with the restaurant id, exactly the pair added, and the cache flushed |
| MeRoutes.StoreFavorite | src/routes/me.ts:94-105 | once the request is validated, 404 and 409 keep the tables and the cache; a lost race leaves exactly the pair added; otherwise 201 with the restaurant id, the pair added and the cache flushed |
| MeRoutes.DropFavorite | src/routes/me.ts:111-127 | always 204; the pair is no longer a favourite, nothing else changed, and the cache flushed |
| AdminRoutes.GetStats | src/routes/admin.ts:13-25 | 401 without a valid token, 403 for a USER; otherwise the statistics with 200 or 500 ADMIN_STATS_ERROR; the cache is untouched |
| AuthRoutes.Gates | src/middleware/rateLimit.ts:5-17 | a throttled client gets 429 RATE_LIMIT_AUTH before its body is looked at; otherwise the body's schema decides |
| AuthRoutes.Register | src/routes/auth.ts:15-27 | a refused body changes nothing; otherwise the tables are exactly those of the service's registerUser (AfterRegistration): a taken e-mail changes nothing and is 409, a lost race leaves the rival's USER row and is refused, and otherwise 201 with a token for the new USER's id; the cache is untouched |
| AuthRoutes.StoreUser | src/routes/auth.ts:19-26 | once the body is validated, the tables become exactly AfterRegistration of the old tables; a taken e-mail is 409, a lost race is refused, and otherwise 201 with the new USER's token |
| AuthRoutes.Login | src/routes/auth.ts:32-44 | a refused body is answered with its error; otherwise the login result with 200, or the single 401 INVALID_CREDENTIALS |
| Text.TrimSpec | src/services/authService.ts:17-19 | trimming removes exactly the leading and trailing white space |
| Text.TrimIdempotent | src/services/authService.ts:17 | trimming twice is trimming once, so the service's trim of the validated e-mail changes nothing |
| Text.ToLowerIdempotent | src/services/authService.ts:17 | lower-casing (A–Z) twice is lower-casing once |
| Text.SplitJoin | src/services/authService.ts:27 | splitting the join of a non-empty list of separator-free parts gives the parts back, so `split("@")[0]` of such a join is its first part |
| Text.JsLength | src/dto/restaurantDTO.ts:34 | a string's length as zod's min and max count it: at least its number of characters, at most twice that |
| Text.AstralCountsTwice | src/dto/restaurantDTO.ts:34 | a character above U+FFFF is one character but two code units |
| Text.BmpLength | src/dto/authDTO.ts:12-13 | on text within the Basic Multilingual Plane the code-unit length is the character count |
| Text.TrimShortens | src/dto/restaurantDTO.ts:36 | trimming never makes a string longer in code units, so a name within 200 stays within 200 once trimmed |
| Sorting.Sort | src/repositories/restaurantRepository.ts:72 | ORDER BY yields a sorted permutation of its input |
| Sorting.SortIsStable | src/repositories/restaurantRepository.ts:72 | rows that ORDER BY ranks level come out in their row order |
| Sorting.SortDistinct | src/repositories/adminRepository.ts:34-36 | sorting rows whose keys are distinct keeps them distinct, so no grouped restaurant is repeated |
| Sorting.TakeComesFirst | src/repositories/adminRepository.ts:35-36 | LIMIT n of a sorted result keeps the first rows, each ranked no lower than any row left out |

## Left out

- The general rate limiter (RATE_LIMIT_GENERAL) is mounted on the whole application and is not modelled. For the auth limiter, whether the client has used up its window is the parameter `limited`; the counting inside express-rate-limit is not modelled.
- bcrypt and jsonwebtoken are parameters: `salted` hashes, and `Crypto` signs and compares. Token verification is a function from the token to a principal or an error. Expiry times, signatures and the secret are not modelled.
- The e-mail regular expression of zod is an abstract predicate `isEmail`.
- Text.ToLower: lowers the ASCII letters A–Z only, where JavaScript's `toLowerCase` lowers every Unicode letter ("É" becomes "é"). The two agree on every string that zod's e-mail pattern accepts, because that pattern admits ASCII characters only. `isEmail` is a parameter, so AuthService.NormalEmail, AuthDto.DecodeEmail, ResponseDto.ParseUserResponse, Zod.TrimThenLower and Zod.EmailStepsResult also cover strings where the model's lowering and the program's differ.
- Floating-point numbers are `real`s, without rounding. `Number(string)` is modelled for decimals with an optional sign and fraction; exponents, hexadecimal and Infinity become NaN here.
- `z.coerce.number()` of an array or an object is NaN here, while JavaScript converts some arrays to numbers. Query and path values are strings, so this only matters for a JSON review body whose rating is an array.
- `created_at` is an integer timestamp supplied by the caller. SQLite's `datetime('now')` and its text format are not modelled.
- The table definitions are not part of this model, and the model assumes `AUTOINCREMENT` ids (Tables.Tables' next-id counters). Under a plain `INTEGER PRIMARY KEY`, SQLite hands out max(rowid) + 1. There, deleting the restaurant or review with the highest id and then inserting one gives the new row the deleted row's id, where the model gives a fresh id.
- Rows come back in insertion order. This is SQLite's rowid order for queries without ORDER BY, which the engine does not promise.
- A sort does not say how ties are broken. Ties in ORDER BY clauses, including the admin top-3 rankings, keep their row order: the model sorts with a stable insertion sort (Sorting.SortIsStable).
- Storage failures, concurrent writers and foreign-key violations are parameters: `storageFault`, `rival` and `fault`. A rival is a concurrent request that inserts the same review, favourite or e-mail between the service's check and its own insert; the model appends the rival's row, then lets the service's own insert fail.
- The cache's clock is the `now` field of the environment. node-cache's TTL check is modelled as "expired when older than 30 seconds". Its internal cloning and size limits are not modelled.
- The translator is stored in the request when the request is built; it is not recomputed from the header at each `t(req, key)` call. The header cannot change during a request.
- Logging (`logger`, `requestLogger`), the `request_id` middleware, `index.ts`'s router mounting, JSON body parsing, helmet and CORS are not part of this model. A request's id is a plain field. A body syntax error is only the error handler's INVALID_JSON case.
- For the strict registration schema, the unknown-key issue has the path [] and the message "Unrecognized key(s) in object". The list of keys that zod appends to that message is not modelled.
- RestaurantRoutes.NotFoundReplayedWithOk: for the first answer, states the 404 status and the envelope's request id, but not its error code or message. The second answer is stated in full: status 200 and the first answer's body.
- RestaurantRoutes.AskMissing: on a miss, states the 404 status and the envelope's request id, but not its error code or translated message.
- Cache.ResponseCache.Invalidate: when the flush fails, the entries it leaves are not stated, because node-cache gives no guarantee for a partial flush.
- RestaurantRepository.ListRestaurants: requires a limit of at least 1. The query schema guarantees this; the repository itself is never called with 0.
- RestaurantDto.DecodeHoursFrom: an issue in an entry is reported under "hours" without stating the entry's full path.
- RestaurantAdminService.CreatedListsItsHours: assumes no hours row already refers to the new restaurant id. The foreign key guarantees this, but it is not part of `Tables.Valid`.
- Validate.Validate: requires the slot to still hold the raw request value. Each route validates each slot once.
- The response-DTO parses of fields the database guarantees are not modelled as failures, except for the e-mail checks. Examples are ids being numbers and names being strings.
- The admin routes are mounted at /admin/restaurants and /admin in `index.ts`. That mounting is not part of this model.
