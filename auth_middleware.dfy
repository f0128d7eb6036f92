/** authMiddleware and roleMiddleware. Token verification (jsonwebtoken
    under the server secret and clock) is the parameter `verify`: the
    payload of a good token, or which of its three failures verifyToken
    raised. The middleware answers every failure with the same 401. */
module AuthMiddleware {
  import opened Wrappers
  import opened Tables
  import opened AppErrors
  import Text
  import I18n
  import ErrorHandler
  import Http

  /** verifyToken's failures: TOKEN_EXPIRED, TOKEN_INVALID and AUTH_ERROR. */
  datatype TokenError = Expired | Invalid | OtherTokenError

  /** The AppError both middlewares raise without a user: its message is
      already `t(req, "UNAUTHORIZED")`. */
  function Unauthorized(t: string -> string): Failure {
    Raise(t("UNAUTHORIZED"), 401, "UNAUTHORIZED")
  }

  function Forbidden(t: string -> string): Failure {
    Raise(t("FORBIDDEN"), 403, "FORBIDDEN")
  }

  /** The token of the Authorization header: `header.split(" ")` must start
      with exactly "Bearer" and have a non-empty second piece; a missing or
      empty header has none. Pieces after the second are ignored. */
  function BearerToken(header: Option<string>): (token: Option<string>)
    ensures token.Some? ==> header.Some? && Text.Split(header.value, ' ')[0] == "Bearer"
    ensures token.Some? ==> token.value != "" && ' ' !in token.value
  {
    if header.None? || header.value == "" then None
    else
      var parts := Text.Split(header.value, ' ');
      if parts[0] != "Bearer" || |parts| < 2 || parts[1] == "" then None
      else Some(parts[1])
  }

  /** "Bearer " followed by a token without spaces gives that token back,
      and so does any longer header made of more pieces after it. */
  lemma {:induction false} BearerRoundTrip(token: string, rest: seq<string>)
    requires token != "" && ' ' !in token
    requires forall i :: 0 <= i < |rest| ==> ' ' !in rest[i]
    ensures BearerToken(Some(Text.Join(["Bearer", token] + rest, ' '))) == Some(token)
  {
    var parts := ["Bearer", token] + rest;
    assert forall i :: 0 <= i < |parts| ==> ' ' !in parts[i] by {
      forall i | 0 <= i < |parts| ensures ' ' !in parts[i] {
        if i >= 2 { assert parts[i] == rest[i - 2]; }
      }
    }
    Text.SplitJoin(parts, ' ');
    assert Text.Join(parts, ' ') != "" by {
      assert |Text.Split(Text.Join(parts, ' '), ' ')| >= 2;
      assert Text.Split("", ' ') == [""];
    }
  }

  /** The scheme is compared case-sensitively: "bearer", "BEARER" and any
      other spelling than "Bearer" gets no token. */
  lemma {:induction false} SchemeIsCaseSensitive(scheme: string, token: string)
    requires scheme != "Bearer" && ' ' !in scheme
    ensures BearerToken(Some(scheme + " " + token)).None?
  {
    Text.SplitPrefix(scheme, " " + token, ' ');
    Text.SplitPrefix("", " " + token, ' ');
    assert (" " + token)[1..] == token;
    assert Text.Split(" " + token, ' ')[0] == "";
    assert scheme + "" == scheme;
  }

  /** A header with the scheme alone, or the scheme and a space, has no
      token. */
  lemma {:induction false} SchemeAloneRefused()
    ensures BearerToken(Some("Bearer")).None?
    ensures BearerToken(Some("Bearer ")).None?
  {
    Text.SplitJoin(["Bearer"], ' ');
    Text.SplitJoin(["Bearer", ""], ' ');
    assert Text.Join(["Bearer", ""], ' ') == "Bearer ";
  }

  /** authMiddleware as a decision on the header and the verifier. */
  function Authentication(header: Option<string>, verify: string -> Result<Http.Principal, TokenError>, t: string -> string)
    : (r: Result<Http.Principal, Failure>)
    ensures BearerToken(header).None? ==> r == Err(Unauthorized(t))
    ensures BearerToken(header).Some? && verify(BearerToken(header).value).Err? ==> r == Err(Unauthorized(t))
    ensures BearerToken(header).Some? && verify(BearerToken(header).value).Ok? ==>
      r == Ok(verify(BearerToken(header).value).value)
  {
    match BearerToken(header)
    case None => Err(Unauthorized(t))
    case Some(token) =>
      match verify(token)
      case Ok(payload) => Ok(payload)
      case Err(_) => Err(Unauthorized(t))
  }

  /** authMiddleware: the payload of the bearer token becomes `req.user` and
      the chain goes on; anything else is a 401. Nothing else in the request
      changes. */
  method Authenticate(req: Http.Request, verify: string -> Result<Http.Principal, TokenError>)
    returns (r: Result<Http.Principal, Failure>)
    modifies req
    ensures r == Authentication(req.authorization, verify, req.translate)
    ensures r.Ok? ==> req.user == Some(r.value)
    ensures r.Err? ==> req.user == old(req.user)
    ensures req.body == old(req.body) && req.query == old(req.query) && req.params == old(req.params)
  {
    var token := BearerToken(req.authorization);
    if token.None? {
      return Err(Unauthorized(req.translate));
    }
    var verified := verify(token.value);
    if verified.Err? {
      return Err(Unauthorized(req.translate));
    }
    req.user := Some(verified.value);
    r := Ok(verified.value);
  }

  /** roleMiddleware(roles): 401 without a user, 403 FORBIDDEN when the
      user's role is not listed, and on otherwise. */
  function RoleGate(user: Option<Http.Principal>, roles: set<Role>, t: string -> string): (r: Option<Failure>)
    ensures user.None? ==> r == Some(Unauthorized(t))
    ensures user.Some? ==> (r.None? <==> user.value.role in roles)
    ensures user.Some? && r.Some? ==> r.value == Forbidden(t)
  {
    if user.None? then Some(Unauthorized(t))
    else if user.value.role !in roles then Some(Forbidden(t))
    else None
  }

  /** authMiddleware followed by roleMiddleware(roles), as the admin routes
      chain them: a missing or bad token is a 401 whatever the role would
      have been, a valid token of an unlisted role a 403. */
  function Admission(header: Option<string>, verify: string -> Result<Http.Principal, TokenError>, roles: set<Role>, t: string -> string)
    : (r: Result<Http.Principal, Failure>)
    ensures Authentication(header, verify, t).Err? ==> r == Err(Unauthorized(t))
    ensures Authentication(header, verify, t).Ok? ==>
      if Authentication(header, verify, t).value.role in roles then r == Authentication(header, verify, t)
      else r == Err(Forbidden(t))
    ensures r.Ok? ==> r.value.role in roles
  {
    var user :- Authentication(header, verify, t);
    match RoleGate(Some(user), roles, t)
    case Some(denied) => Err(denied)
    case None => Ok(user)
  }

  // What the two denials read in each language, one catalog at a time.

  lemma EnglishDenialEntries()
    ensures "UNAUTHORIZED" in I18n.EnGeneral && I18n.EnGeneral["UNAUTHORIZED"] == "Unauthorized"
    ensures "FORBIDDEN" in I18n.EnGeneral && I18n.EnGeneral["FORBIDDEN"] == "Forbidden"
  {
  }

  lemma EnglishDenialKeysGeneralOnly()
    ensures "UNAUTHORIZED" !in I18n.EnValidation && "UNAUTHORIZED" !in I18n.EnFields && "UNAUTHORIZED" !in I18n.EnLengths
    ensures "FORBIDDEN" !in I18n.EnValidation && "FORBIDDEN" !in I18n.EnFields && "FORBIDDEN" !in I18n.EnLengths
  {
  }

  lemma EnglishCatalogDenials()
    ensures "UNAUTHORIZED" in I18n.EnMessages && I18n.EnMessages["UNAUTHORIZED"] == "Unauthorized"
    ensures "FORBIDDEN" in I18n.EnMessages && I18n.EnMessages["FORBIDDEN"] == "Forbidden"
  {
    EnglishDenialEntries();
    EnglishDenialKeysGeneralOnly();
    I18n.FirstGroupLookup(I18n.EnGeneral, I18n.EnValidation, I18n.EnFields, I18n.EnLengths, "UNAUTHORIZED");
    I18n.FirstGroupLookup(I18n.EnGeneral, I18n.EnValidation, I18n.EnFields, I18n.EnLengths, "FORBIDDEN");
  }

  lemma EnglishDenials()
    ensures I18n.T(I18n.En, "UNAUTHORIZED") == "Unauthorized" && I18n.T(I18n.En, "FORBIDDEN") == "Forbidden"
  {
    EnglishCatalogDenials();
    I18n.EnglishEntry("UNAUTHORIZED", "Unauthorized");
    I18n.EnglishEntry("FORBIDDEN", "Forbidden");
  }

  lemma SpanishDenialEntries()
    ensures "UNAUTHORIZED" in I18n.EsGeneral && I18n.EsGeneral["UNAUTHORIZED"] == "No autorizado"
    ensures "FORBIDDEN" in I18n.EsGeneral && I18n.EsGeneral["FORBIDDEN"] == "Prohibido"
  {
  }

  lemma SpanishDenialKeysGeneralOnly()
    ensures "UNAUTHORIZED" !in I18n.EsValidation && "UNAUTHORIZED" !in I18n.EsFields && "UNAUTHORIZED" !in I18n.EsLengths
    ensures "FORBIDDEN" !in I18n.EsValidation && "FORBIDDEN" !in I18n.EsFields && "FORBIDDEN" !in I18n.EsLengths
  {
  }

  lemma SpanishCatalogDenials()
    ensures "UNAUTHORIZED" in I18n.EsMessages && I18n.EsMessages["UNAUTHORIZED"] == "No autorizado"
    ensures "FORBIDDEN" in I18n.EsMessages && I18n.EsMessages["FORBIDDEN"] == "Prohibido"
  {
    SpanishDenialEntries();
    SpanishDenialKeysGeneralOnly();
    I18n.FirstGroupLookup(I18n.EsGeneral, I18n.EsValidation, I18n.EsFields, I18n.EsLengths, "UNAUTHORIZED");
    I18n.FirstGroupLookup(I18n.EsGeneral, I18n.EsValidation, I18n.EsFields, I18n.EsLengths, "FORBIDDEN");
  }

  lemma SpanishDenials()
    ensures I18n.T(I18n.Es, "UNAUTHORIZED") == "No autorizado" && I18n.T(I18n.Es, "FORBIDDEN") == "Prohibido"
  {
    SpanishCatalogDenials();
    I18n.SpanishEntry("UNAUTHORIZED", "No autorizado");
    I18n.SpanishEntry("FORBIDDEN", "Prohibido");
  }

  lemma FrenchDenialEntries()
    ensures "UNAUTHORIZED" in I18n.FrGeneral && I18n.FrGeneral["UNAUTHORIZED"] == "Non autorisé"
    ensures "FORBIDDEN" in I18n.FrGeneral && I18n.FrGeneral["FORBIDDEN"] == "Interdit"
  {
  }

  lemma FrenchDenialKeysGeneralOnly()
    ensures "UNAUTHORIZED" !in I18n.FrValidation && "UNAUTHORIZED" !in I18n.FrFields && "UNAUTHORIZED" !in I18n.FrLengths
    ensures "FORBIDDEN" !in I18n.FrValidation && "FORBIDDEN" !in I18n.FrFields && "FORBIDDEN" !in I18n.FrLengths
  {
  }

  lemma FrenchCatalogDenials()
    ensures "UNAUTHORIZED" in I18n.FrMessages && I18n.FrMessages["UNAUTHORIZED"] == "Non autorisé"
    ensures "FORBIDDEN" in I18n.FrMessages && I18n.FrMessages["FORBIDDEN"] == "Interdit"
  {
    FrenchDenialEntries();
    FrenchDenialKeysGeneralOnly();
    I18n.FirstGroupLookup(I18n.FrGeneral, I18n.FrValidation, I18n.FrFields, I18n.FrLengths, "UNAUTHORIZED");
    I18n.FirstGroupLookup(I18n.FrGeneral, I18n.FrValidation, I18n.FrFields, I18n.FrLengths, "FORBIDDEN");
  }

  lemma FrenchDenials()
    ensures I18n.T(I18n.Fr, "UNAUTHORIZED") == "Non autorisé" && I18n.T(I18n.Fr, "FORBIDDEN") == "Interdit"
  {
    FrenchCatalogDenials();
    I18n.FrenchEntry("UNAUTHORIZED", "Non autorisé");
    I18n.FrenchEntry("FORBIDDEN", "Interdit");
  }

  predicate IsDeniedText(s: string) {
    s == "Unauthorized" || s == "Forbidden" || s == "No autorizado" || s == "Prohibido"
    || s == "Non autorisé" || s == "Interdit"
  }

  lemma DeniedTextsNotInGeneral(s: string)
    requires IsDeniedText(s)
    ensures s !in I18n.EnGeneral
  {
  }

  lemma DeniedTextsNotInOthers(s: string)
    requires IsDeniedText(s)
    ensures s !in I18n.EnValidation && s !in I18n.EnFields && s !in I18n.EnLengths
  {
  }

  /** No text a denial reads as is itself a catalog key. */
  lemma DeniedTextIsNoKey(s: string)
    requires IsDeniedText(s)
    ensures s !in I18n.EnMessages
  {
    DeniedTextsNotInGeneral(s);
    DeniedTextsNotInOthers(s);
  }

  /** The translations of UNAUTHORIZED and FORBIDDEN, in every language. */
  lemma DenialsAreDeniedTexts(lang: I18n.Lang)
    ensures IsDeniedText(I18n.T(lang, "UNAUTHORIZED")) && IsDeniedText(I18n.T(lang, "FORBIDDEN"))
  {
    match lang
    case En => EnglishDenials();
    case Es => SpanishDenials();
    case Fr => FrenchDenials();
  }

  /** Translating a denial's text again leaves it as it is. */
  lemma TranslatedTwice(lang: I18n.Lang)
    ensures I18n.T(lang, I18n.T(lang, "UNAUTHORIZED")) == I18n.T(lang, "UNAUTHORIZED")
    ensures I18n.T(lang, I18n.T(lang, "FORBIDDEN")) == I18n.T(lang, "FORBIDDEN")
  {
    DenialsAreDeniedTexts(lang);
    DeniedTextIsNoKey(I18n.T(lang, "UNAUTHORIZED"));
    DeniedTextIsNoKey(I18n.T(lang, "FORBIDDEN"));
    I18n.NonKeyUnchanged(lang, I18n.T(lang, "UNAUTHORIZED"));
    I18n.NonKeyUnchanged(lang, I18n.T(lang, "FORBIDDEN"));
  }

  /** The middleware's message is translated a second time by the error
      handler; since a translation is no key, the client still reads it
      once translated. Whatever the token's failure, the reply is the same
      401 UNAUTHORIZED. */
  lemma DeniedReplies(lang: I18n.Lang, requestId: string)
    ensures var t := I18n.Translator(lang);
      ErrorHandler.HandleError(Unauthorized(t), t, requestId)
        == ErrorHandler.Outcome(401, ErrorHandler.Envelope("UNAUTHORIZED", I18n.T(lang, "UNAUTHORIZED"), requestId))
    ensures var t := I18n.Translator(lang);
      ErrorHandler.HandleError(Forbidden(t), t, requestId)
        == ErrorHandler.Outcome(403, ErrorHandler.Envelope("FORBIDDEN", I18n.T(lang, "FORBIDDEN"), requestId))
  {
    TranslatedTwice(lang);
  }
}
