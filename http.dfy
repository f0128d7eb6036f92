/** The request and response objects the middleware chain passes along.
    A request's body, query and params start as the parsed JSON or query
    string and are overwritten by the validators with the decoded value;
    `user` is written by the authentication middleware. A reply starts with
    Express's default status 200 and nothing sent. */
module Http {
  import opened Wrappers
  import opened Json
  import opened Tables
  import I18n
  import ErrorHandler
  import RestaurantDto
  import ReviewDto
  import AuthDto
  import ResponseDto
  import RestaurantService
  import AuthService

  datatype Verb = Get | Post | Put | Delete

  /** The payload of a verified token, stored as `req.user`. */
  datatype Principal = Principal(id: int, role: Role)

  /** A request target before validation (`Raw`) and after it. */
  datatype Payload =
    | Raw(json: Json)
    | QueryValue(query: RestaurantDto.RestaurantsQuery)
    | RestaurantValue(restaurant: RestaurantDto.RestaurantInput)
    | ReviewValue(review: ReviewDto.ReviewInput)
    | IdValue(id: int)
    | RegisterValue(registration: AuthDto.RegisterInput)
    | LoginValue(login: AuthDto.LoginInput)

  /** What reaches `res.json`, or nothing for `res.send()`. */
  datatype Body =
    | NoBody
    | ListBody(list: RestaurantService.ListPage)
    | DetailBody(detail: ResponseDto.Detail)
    | RestaurantReviewsBody(reviews: seq<ResponseDto.RestaurantReview>)
    | IdBody(id: int)
    | RestaurantIdBody(restaurantId: int)
    | UserBody(user: ResponseDto.UserResponse)
    | UserReviewsBody(userReviews: seq<ResponseDto.UserReview>)
    | FavoritesBody(favorites: seq<Rated>)
    | StatsBody(stats: ResponseDto.AdminStats)
    | RegisteredBody(registered: AuthService.Registered)
    | LoggedInBody(loggedIn: AuthService.LoggedIn)
    | ErrorBody(envelope: ErrorHandler.Envelope)

  /** Which request field a validator reads and overwrites. */
  datatype Target = BodyTarget | QueryTarget | ParamsTarget

  class Request {
    const verb: Verb
    const originalUrl: string
    const authorization: Option<string>
    const acceptLanguage: Option<string>
    const requestId: string
    /** `t(req, ·)`: the catalog lookup in this request's language. */
    const translate: string -> string
    var body: Payload
    var query: Payload
    var params: Payload
    var user: Option<Principal>

    constructor (
      verb: Verb, originalUrl: string, authorization: Option<string>, acceptLanguage: Option<string>,
      requestId: string, body: Json, query: Json, params: Json)
      ensures this.verb == verb && this.originalUrl == originalUrl
      ensures this.authorization == authorization && this.acceptLanguage == acceptLanguage
      ensures this.requestId == requestId
      ensures translate == I18n.Translator(Lang())
      ensures this.body == Raw(body) && this.query == Raw(query) && this.params == Raw(params)
      ensures this.user.None?
    {
      this.verb := verb;
      this.originalUrl := originalUrl;
      this.authorization := authorization;
      this.acceptLanguage := acceptLanguage;
      this.requestId := requestId;
      this.translate := I18n.Translator(I18n.LangFromHeader(acceptLanguage));
      this.body := Raw(body);
      this.query := Raw(query);
      this.params := Raw(params);
      this.user := None;
    }

    /** getLangFromRequest, from the Accept-Language header. */
    function Lang(): I18n.Lang {
      I18n.LangFromHeader(acceptLanguage)
    }

    /** The field a validator of `target` works on. */
    function Slot(target: Target): Payload
      reads this
    {
      match target
      case BodyTarget => body
      case QueryTarget => query
      case ParamsTarget => params
    }

    /** A request as it enters the chain: nothing validated, nobody
        authenticated. */
    predicate Incoming()
      reads this
    {
      body.Raw? && query.Raw? && params.Raw? && user.None?
    }
  }

  class Reply {
    var status: int
    var body: Body
    var sent: bool
    /** The key under which the cache middleware's `res.json` wrapper
        stores what is sent; None while `res.json` is the original. */
    var storeUnder: Option<string>

    constructor ()
      ensures status == 200 && body == NoBody && !sent && storeUnder.None?
    {
      status := 200;
      body := NoBody;
      sent := false;
      storeUnder := None;
    }

    /** A reply nothing has been done to yet. */
    predicate Untouched()
      reads this
    {
      status == 200 && body == NoBody && !sent && storeUnder.None?
    }

    /** The reply went out with this status and body. */
    predicate Answered(code: int, b: Body)
      reads this
    {
      sent && status == code && body == b
    }

    /** `res.status(code).send()`: an empty body, never cached. */
    method SendEmpty(code: int)
      modifies this
      ensures status == code && body == NoBody && sent
      ensures storeUnder == old(storeUnder)
    {
      status := code;
      body := NoBody;
      sent := true;
    }
  }
}
