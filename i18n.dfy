/** Message catalogs and the language negotiation of the error envelope:
    `getLangFromRequest` picks es, fr or en from the Accept-Language header and
    `t` looks a key up with the fallback chain language -> English -> key. */
module I18n {
  import opened Wrappers
  import Text

  datatype Lang = En | Es | Fr

  const EnGeneral: map<string, string> :=
    map[
      "INVALID_CREDENTIALS" := "Invalid credentials",
      "EMAIL_IN_USE" := "Email already used",
      "UNAUTHORIZED" := "Unauthorized",
      "FORBIDDEN" := "Forbidden",
      "RESTAURANT_NOT_FOUND" := "Restaurant not found",
      "REVIEW_NOT_FOUND" := "Review not found",
      "TOO_MANY_REQUESTS" := "Too many requests, please try again later",
      "INTERNAL_ERROR" := "Internal server error",
      "REVIEW_UPDATED" := "Review updated",
      "FAVORITE_ADDED" := "Added to favorites",
      "RESTAURANT_UPDATED" := "Restaurant updated successfully",
      "INVALID_PAYLOAD" := "Invalid payload",
      "ADMIN_STATS_ERROR" := "Failed to load admin statistics",
      "ALREADY_FAVORITE" := "Already added to favorites",
      "USER_NOT_FOUND" := "User not found",
      "CACHE_MIDDLEWARE_ERROR" := "Cache middleware error",
      "RATE_LIMIT_AUTH" := "Too many login attempts, please try again later",
      "VALIDATION_ERROR" := "Validation error"
    ]

  const EnValidation: map<string, string> :=
    map[
      "INVALID_EMAIL" := "Email is not valid",
      "PASSWORD_TOO_SHORT" := "Password must be at least 8 characters",
      "PASSWORD_UPPERCASE_REQUIRED" := "Password must contain an uppercase letter",
      "PASSWORD_LOWERCASE_REQUIRED" := "Password must contain a lowercase letter",
      "PASSWORD_NUMBER_REQUIRED" := "Password must contain a number",
      "PASSWORD_REQUIRED" := "Password is required",
      "NAME_REQUIRED" := "Name is required",
      "INVALID_PAGE" := "Invalid page number",
      "INVALID_LIMIT" := "Invalid limit",
      "INVALID_RATING" := "Rating must be a number",
      "RATING_MIN" := "Rating cannot be lower than 1",
      "RATING_MAX" := "Rating cannot be higher than 5"
    ]

  const EnFields: map<string, string> :=
    map[
      "INVALID_SORT" := "Invalid sort format",
      "INVALID_LAT" := "Invalid latitude",
      "INVALID_LNG" := "Invalid longitude",
      "INVALID_DAY" := "Invalid day",
      "INVALID_HOURS" := "Invalid hours format",
      "INVALID_RESTAURANT_ID" := "Invalid restaurant ID",
      "INVALID_REVIEW_ID" := "Invalid review ID",
      "REQUIRED" := "The field is required:",
      "ALREADY_REVIEWED" := "You have already submitted a review for this restaurant"
    ]

  const EnLengths: map<string, string> :=
    map[
      "COMMENTS_TOO_LONG" := "Comments cannot exceed 5000 characters",
      "NAME_TOO_LONG" := "Name cannot exceed 200 characters",
      "NEIGHBORHOOD_TOO_LONG" := "Neighborhood cannot exceed 100 characters",
      "CUISINE_TYPE_TOO_LONG" := "Cuisine type cannot exceed 100 characters",
      "ADDRESS_TOO_LONG" := "Address cannot exceed 500 characters",
      "PHOTOGRAPH_TOO_LONG" := "Photograph URL cannot exceed 1000 characters",
      "IMAGE_TOO_LONG" := "Image URL cannot exceed 1000 characters",
      "PASSWORD_TOO_LONG" := "Password cannot exceed 128 characters"
    ]

  /** The English catalog: the four groups the source lists (they share no key). */
  const EnMessages: map<string, string> :=
    EnGeneral + EnValidation + EnFields + EnLengths

  const EsGeneral: map<string, string> :=
    map[
      "INVALID_CREDENTIALS" := "Credenciales inválidas",
      "EMAIL_IN_USE" := "El email ya está en uso",
      "UNAUTHORIZED" := "No autorizado",
      "FORBIDDEN" := "Prohibido",
      "RESTAURANT_NOT_FOUND" := "Restaurante no encontrado",
      "REVIEW_NOT_FOUND" := "Reseña no encontrada",
      "TOO_MANY_REQUESTS" := "Demasiadas peticiones, inténtalo de nuevo más tarde",
      "INTERNAL_ERROR" := "Error interno del servidor",
      "REVIEW_UPDATED" := "Reseña actualizada",
      "FAVORITE_ADDED" := "Añadido a favoritos",
      "RESTAURANT_UPDATED" := "Restaurante actualizado correctamente",
      "INVALID_PAYLOAD" := "Payload inválido",
      "ADMIN_STATS_ERROR" := "No se pudieron cargar las estadísticas de administración",
      "ALREADY_FAVORITE" := "Ya está en favoritos",
      "USER_NOT_FOUND" := "Usuario no encontrado",
      "CACHE_MIDDLEWARE_ERROR" := "Error en el middleware de caché",
      "RATE_LIMIT_AUTH" := "Demasiados intentos de login, inténtalo más tarde",
      "VALIDATION_ERROR" := "Error de validación"
    ]

  const EsValidation: map<string, string> :=
    map[
      "INVALID_EMAIL" := "El email no es válido",
      "PASSWORD_TOO_SHORT" := "La contraseña debe tener al menos 8 caracteres",
      "PASSWORD_UPPERCASE_REQUIRED" := "La contraseña debe contener una mayúscula",
      "PASSWORD_LOWERCASE_REQUIRED" := "La contraseña debe contener una minúscula",
      "PASSWORD_NUMBER_REQUIRED" := "La contraseña debe contener un número",
      "PASSWORD_REQUIRED" := "La contraseña es obligatoria",
      "NAME_REQUIRED" := "El nombre es obligatorio",
      "INVALID_PAGE" := "El número de página no es válido",
      "INVALID_LIMIT" := "El límite no es válido",
      "INVALID_RATING" := "El rating debe ser un número",
      "RATING_MIN" := "El rating no puede ser menor que 1",
      "RATING_MAX" := "El rating no puede ser mayor que 5"
    ]

  const EsFields: map<string, string> :=
    map[
      "INVALID_SORT" := "El formato de ordenación es inválido",
      "INVALID_LAT" := "Latitud inválida",
      "INVALID_LNG" := "Longitud inválida",
      "INVALID_DAY" := "Día inválido",
      "INVALID_HOURS" := "Formato de horas inválido",
      "INVALID_RESTAURANT_ID" := "ID de restaurante inválido",
      "INVALID_REVIEW_ID" := "ID de reseña inválido",
      "REQUIRED" := "El campo es obligatorio:",
      "ALREADY_REVIEWED" := "Ya has enviado una reseña para este restaurante"
    ]

  const EsLengths: map<string, string> :=
    map[
      "COMMENTS_TOO_LONG" := "Los comentarios no pueden exceder 5000 caracteres",
      "NAME_TOO_LONG" := "El nombre no puede exceder 200 caracteres",
      "NEIGHBORHOOD_TOO_LONG" := "El barrio no puede exceder 100 caracteres",
      "CUISINE_TYPE_TOO_LONG" := "El tipo de cocina no puede exceder 100 caracteres",
      "ADDRESS_TOO_LONG" := "La dirección no puede exceder 500 caracteres",
      "PHOTOGRAPH_TOO_LONG" := "La URL de la fotografía no puede exceder 1000 caracteres",
      "IMAGE_TOO_LONG" := "La URL de la imagen no puede exceder 1000 caracteres",
      "PASSWORD_TOO_LONG" := "La contraseña no puede exceder 128 caracteres"
    ]

  /** The Spanish catalog. */
  const EsMessages: map<string, string> :=
    EsGeneral + EsValidation + EsFields + EsLengths

  const FrGeneral: map<string, string> :=
    map[
      "INVALID_CREDENTIALS" := "Identifiants invalides",
      "EMAIL_IN_USE" := "L'email est déjà utilisé",
      "UNAUTHORIZED" := "Non autorisé",
      "FORBIDDEN" := "Interdit",
      "RESTAURANT_NOT_FOUND" := "Restaurant introuvable",
      "REVIEW_NOT_FOUND" := "Avis introuvable",
      "TOO_MANY_REQUESTS" := "Trop de requêtes, réessayez plus tard",
      "INTERNAL_ERROR" := "Erreur interne du serveur",
      "REVIEW_UPDATED" := "Avis mis à jour",
      "FAVORITE_ADDED" := "Ajouté aux favoris",
      "RESTAURANT_UPDATED" := "Restaurant mis à jour avec succès",
      "INVALID_PAYLOAD" := "Données invalides",
      "ADMIN_STATS_ERROR" := "Impossible de charger les statistiques d'administration",
      "ALREADY_FAVORITE" := "Déjà dans les favoris",
      "USER_NOT_FOUND" := "Utilisateur introuvable",
      "CACHE_MIDDLEWARE_ERROR" := "Erreur du middleware de cache",
      "RATE_LIMIT_AUTH" := "Trop de tentatives de connexion, réessayez plus tard",
      "VALIDATION_ERROR" := "Erreur de validation"
    ]

  const FrValidation: map<string, string> :=
    map[
      "INVALID_EMAIL" := "L'email n'est pas valide",
      "PASSWORD_TOO_SHORT" := "Le mot de passe doit contenir au moins 8 caractères",
      "PASSWORD_UPPERCASE_REQUIRED" := "Le mot de passe doit contenir une majuscule",
      "PASSWORD_LOWERCASE_REQUIRED" := "Le mot de passe doit contenir une minuscule",
      "PASSWORD_NUMBER_REQUIRED" := "Le mot de passe doit contenir un chiffre",
      "PASSWORD_REQUIRED" := "Le mot de passe est obligatoire",
      "NAME_REQUIRED" := "Le nom est obligatoire",
      "INVALID_PAGE" := "Numéro de page invalide",
      "INVALID_LIMIT" := "Limite invalide",
      "INVALID_RATING" := "La note doit être un nombre",
      "RATING_MIN" := "La note ne peut pas être inférieure à 1",
      "RATING_MAX" := "La note ne peut pas dépasser 5"
    ]

  const FrFields: map<string, string> :=
    map[
      "INVALID_SORT" := "Format de tri invalide",
      "INVALID_LAT" := "Latitude invalide",
      "INVALID_LNG" := "Longitude invalide",
      "INVALID_DAY" := "Jour invalide",
      "INVALID_HOURS" := "Format horaire invalide",
      "INVALID_RESTAURANT_ID" := "ID de restaurant invalide",
      "INVALID_REVIEW_ID" := "ID d'avis invalide",
      "REQUIRED" := "Le champ est obligatoire :",
      "ALREADY_REVIEWED" := "Vous avez déjà déposé un avis pour ce restaurant"
    ]

  const FrLengths: map<string, string> :=
    map[
      "COMMENTS_TOO_LONG" := "Les commentaires ne peuvent pas dépasser 5000 caractères",
      "NAME_TOO_LONG" := "Le nom ne peut pas dépasser 200 caractères",
      "NEIGHBORHOOD_TOO_LONG" := "Le quartier ne peut pas dépasser 100 caractères",
      "CUISINE_TYPE_TOO_LONG" := "Le type de cuisine ne peut pas dépasser 100 caractères",
      "ADDRESS_TOO_LONG" := "L'adresse ne peut pas dépasser 500 caractères",
      "PHOTOGRAPH_TOO_LONG" := "L'URL de la photographie ne peut pas dépasser 1000 caractères",
      "IMAGE_TOO_LONG" := "L'URL de l'image ne peut pas dépasser 1000 caractères",
      "PASSWORD_TOO_LONG" := "Le mot de passe ne peut pas dépasser 128 caractères"
    ]

  /** The French catalog. */
  const FrMessages: map<string, string> :=
    FrGeneral + FrValidation + FrFields + FrLengths

  function Catalog(lang: Lang): map<string, string> {
    match lang
    case En => EnMessages
    case Es => EsMessages
    case Fr => FrMessages
  }

  /** getLangFromRequest: "es" when the lower-cased header starts with "es",
      else "fr" when it starts with "fr", else "en" (also with no header). */
  function LangFromHeader(header: Option<string>): (lang: Lang)
    ensures lang == Es <==>
      header.Some? && |header.value| >= 2
      && Text.LowerChar(header.value[0]) == 'e' && Text.LowerChar(header.value[1]) == 's'
    ensures lang == Fr <==>
      header.Some? && |header.value| >= 2
      && Text.LowerChar(header.value[0]) == 'f' && Text.LowerChar(header.value[1]) == 'r'
    ensures header.None? ==> lang == En
  {
    match header
    case Some(h) =>
      var lower := Text.ToLower(h);
      if Text.StartsWith(lower, "es") then Es
      else if Text.StartsWith(lower, "fr") then Fr
      else En
    case None => En
  }

  /** t(req, key): `messages[lang][key] ?? messages.en[key] ?? key`. */
  function T(lang: Lang, key: string): string {
    var cat := Catalog(lang);
    if key in cat then cat[key]
    else if key in EnMessages then EnMessages[key]
    else key
  }

  /** `t` bound to one language, as the handlers hold it for their request:
      `key => t(req, key)`. */
  function Translator(lang: Lang): (t: string -> string)
    ensures forall key :: t(key) == T(lang, key)
  {
    key => T(lang, key)
  }

  lemma GeneralGroupsShareKeys()
    ensures EnGeneral.Keys == EsGeneral.Keys == FrGeneral.Keys
  {
  }

  lemma ValidationGroupsShareKeys()
    ensures EnValidation.Keys == EsValidation.Keys == FrValidation.Keys
  {
  }

  lemma FieldsGroupsShareKeys()
    ensures EnFields.Keys == EsFields.Keys == FrFields.Keys
  {
  }

  lemma LengthsGroupsShareKeys()
    ensures EnLengths.Keys == EsLengths.Keys == FrLengths.Keys
  {
  }

  /** Catalogs built from groups with the same keys have the same keys. */
  lemma UnionsShareKeys(a: map<string, string>, b: map<string, string>, c: map<string, string>, d: map<string, string>,
                        a': map<string, string>, b': map<string, string>, c': map<string, string>, d': map<string, string>)
    requires a.Keys == a'.Keys && b.Keys == b'.Keys && c.Keys == c'.Keys && d.Keys == d'.Keys
    ensures (a + b + c + d).Keys == (a' + b' + c' + d').Keys
  {
  }

  /** The three catalogs define the same keys, group by group. */
  lemma CatalogsShareKeys()
    ensures EnMessages.Keys == EsMessages.Keys == FrMessages.Keys
  {
    GeneralGroupsShareKeys();
    ValidationGroupsShareKeys();
    FieldsGroupsShareKeys();
    LengthsGroupsShareKeys();
    UnionsShareKeys(EnGeneral, EnValidation, EnFields, EnLengths, EsGeneral, EsValidation, EsFields, EsLengths);
    UnionsShareKeys(EnGeneral, EnValidation, EnFields, EnLengths, FrGeneral, FrValidation, FrFields, FrLengths);
  }

  /** Maps with the same keys agree on membership. */
  lemma SameKeysMember(m: map<string, string>, m': map<string, string>, key: string)
    requires m.Keys == m'.Keys
    ensures key in m <==> key in m'
  {
  }

  // `t` never needs its English fallback: a key of the catalogs is
  // translated from the requested language's own catalog, and a string that
  // is no key comes back unchanged. One language at a time:

  lemma EnglishCases(key: string)
    ensures key in EnMessages ==> T(En, key) == EnMessages[key]
    ensures key !in EnMessages ==> T(En, key) == key
  {
    // Relating the keys to another catalog's keeps the proof search short.
    SpanishKeys(key);
  }

  lemma SpanishCases(key: string)
    ensures key in EnMessages ==> key in EsMessages && T(Es, key) == EsMessages[key]
    ensures key !in EnMessages ==> T(Es, key) == key
  {
    SpanishKeys(key);
  }

  lemma FrenchCases(key: string)
    ensures key in EnMessages ==> key in FrMessages && T(Fr, key) == FrMessages[key]
    ensures key !in EnMessages ==> T(Fr, key) == key
  {
    FrenchKeys(key);
  }

  lemma SpanishKeys(key: string)
    ensures key in EsMessages <==> key in EnMessages
  {
    CatalogsShareKeys();
    SameKeysMember(EsMessages, EnMessages, key);
  }

  lemma FrenchKeys(key: string)
    ensures key in FrMessages <==> key in EnMessages
  {
    CatalogsShareKeys();
    SameKeysMember(FrMessages, EnMessages, key);
  }

  /** A catalog is the union of its four groups; a key of the first group
      alone is looked up there. */
  lemma FirstGroupLookup(a: map<string, string>, b: map<string, string>, c: map<string, string>, d: map<string, string>, k: string)
    requires k in a && k !in b && k !in c && k !in d
    ensures k in a + b + c + d && (a + b + c + d)[k] == a[k]
  {
  }

  // A key a language's catalog holds is translated from that catalog.

  lemma EnglishEntry(key: string, text: string)
    requires key in EnMessages && EnMessages[key] == text
    ensures T(En, key) == text
  {
  }

  lemma SpanishEntry(key: string, text: string)
    requires key in EsMessages && EsMessages[key] == text
    ensures T(Es, key) == text
  {
  }

  lemma FrenchEntry(key: string, text: string)
    requires key in FrMessages && FrMessages[key] == text
    ensures T(Fr, key) == text
  {
  }

  /** A string that is no key of the catalogs comes back unchanged, in
      every language. */
  lemma NonKeyUnchanged(lang: Lang, key: string)
    requires key !in EnMessages
    ensures T(lang, key) == key
  {
    match lang
    case En => EnglishCases(key);
    case Es => SpanishCases(key);
    case Fr => FrenchCases(key);
  }

  /** The free-text messages the services raise instead of a key: every
      English sentence they throw. */
  predicate IsFreeText(message: string) {
    || message == "Restaurant not found"
    || message == "You already reviewed this restaurant"
    || message == "Email already in use"
    || message == "User could not be created"
    || message == "Invalid credentials"
    || message == "Failed to load admin stats"
  }

  lemma FreeTextNotInGeneral(message: string)
    requires IsFreeText(message)
    ensures message !in EnGeneral
  {
  }

  lemma FreeTextNotInOthers(message: string)
    requires IsFreeText(message)
    ensures message !in EnValidation && message !in EnFields && message !in EnLengths
  {
  }

  /** A free-text message (such as "Restaurant not found" or "Email already
      in use") is no key, so it reaches every client in English whatever
      language it asked for. */
  lemma FreeTextIsUntranslated(lang: Lang, message: string)
    requires IsFreeText(message)
    ensures T(lang, message) == message
  {
    FreeTextNotInGeneral(message);
    FreeTextNotInOthers(message);
    NonKeyUnchanged(lang, message);
  }
}
