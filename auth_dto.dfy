/** The validation schemas of registration (strict, with password rules)
    and login. The email check is zod's built-in pattern, which this model
    takes as the predicate `isEmail`. */
module AuthDto {
  import opened Wrappers
  import opened Json
  import opened Zod
  import Text

  datatype RegisterInput = RegisterInput(email: string, password: string, name: string)

  datatype LoginInput = LoginInput(email: string, password: string)

  predicate HasUpper(s: string) {
    exists i :: 0 <= i < |s| && 'A' <= s[i] <= 'Z'
  }

  predicate HasLower(s: string) {
    exists i :: 0 <= i < |s| && 'a' <= s[i] <= 'z'
  }

  predicate HasDigit(s: string) {
    exists i :: 0 <= i < |s| && '0' <= s[i] <= '9'
  }

  /** The keys RegisterDTO declares; `.strict()` refuses every other one. */
  const RegisterKeys: set<string> := {"email", "password", "name"}

  /** zod's message for the issue `.strict()` raises. The library appends
      the offending keys; the model keeps only the fixed part. */
  const UnrecognizedKeysMessage := "Unrecognized key(s) in object"

  const PasswordChecks: seq<StrStep> := [
    MinLen(8, "PASSWORD_TOO_SHORT"),
    MaxLen(128, "PASSWORD_TOO_LONG"),
    Matches(HasUpper, "PASSWORD_UPPERCASE_REQUIRED"),
    Matches(HasLower, "PASSWORD_LOWERCASE_REQUIRED"),
    Matches(HasDigit, "PASSWORD_NUMBER_REQUIRED")]

  const RegisterNameSteps := [MinLen(1, "NAME_REQUIRED"), MaxLen(200, "NAME_TOO_LONG"), TrimStep]

  /** The password rules in the order they are declared: the first broken
      one is reported. */
  function PasswordFailure(s: string): Option<string> {
    if Text.JsLength(s) < 8 then Some("PASSWORD_TOO_SHORT")
    else if Text.JsLength(s) > 128 then Some("PASSWORD_TOO_LONG")
    else if !HasUpper(s) then Some("PASSWORD_UPPERCASE_REQUIRED")
    else if !HasLower(s) then Some("PASSWORD_LOWERCASE_REQUIRED")
    else if !HasDigit(s) then Some("PASSWORD_NUMBER_REQUIRED")
    else None
  }

  lemma PasswordChecksInOrder(s: string)
    ensures forall i :: 0 <= i < |PasswordChecks| ==> IsCheck(PasswordChecks[i])
    ensures FirstStrFailure(PasswordChecks, s) == PasswordFailure(s)
  {
    var c := PasswordChecks;
    assert c[4..][1..] == [];
    assert c[3..][1..] == c[4..];
    assert c[2..][1..] == c[3..];
    assert c[1..][1..] == c[2..];
    assert c[1..] == c[1..];
    assert FirstStrFailure(c[4..], s) == (if HasDigit(s) then None else Some("PASSWORD_NUMBER_REQUIRED"));
    assert FirstStrFailure(c[3..], s) == (if HasLower(s) then FirstStrFailure(c[4..], s) else Some("PASSWORD_LOWERCASE_REQUIRED"));
    assert FirstStrFailure(c[2..], s) == (if HasUpper(s) then FirstStrFailure(c[3..], s) else Some("PASSWORD_UPPERCASE_REQUIRED"));
  }

  /** The password field: the rules are judged on the value as sent, and the
      value kept is the trimmed one. */
  lemma PasswordSteps(s: string)
    ensures RunStrSteps(PasswordChecks + [TrimStep], s) == (PasswordFailure(s), Text.Trim(s))
  {
    PasswordChecksInOrder(s);
    ChecksThenRest(PasswordChecks, [TrimStep], s);
    TrimOnly(s);
  }

  /** The `email` field shared by both schemas. */
  function DecodeEmail(v: Option<Json>, isEmail: string -> bool): (r: Result<string, Issue>)
    ensures r.Ok? <==> v.Some? && v.value.JStr? && isEmail(v.value.s)
    ensures r.Ok? ==> r.value == Text.ToLower(Text.Trim(v.value.s))
    ensures r.Err? ==> r.error.path == ["email"]
    ensures v.Some? && v.value.JStr? && !isEmail(v.value.s) ==> r.error.message == "INVALID_EMAIL"
    ensures v.None? ==> r == Err(Issue(["email"], "Required"))
  {
    if v.Some? && v.value.JStr? then
      EmailStepsResult(v.value.s, isEmail, "INVALID_EMAIL");
      StringField(v, ["email"], None, EmailSteps(isEmail, "INVALID_EMAIL"))
    else
      StringField(v, ["email"], None, EmailSteps(isEmail, "INVALID_EMAIL"))
  }

  /** The register `password` field. */
  function DecodePassword(v: Option<Json>): (r: Result<string, Issue>)
    ensures r.Ok? <==> v.Some? && v.value.JStr? && PasswordFailure(v.value.s).None?
    ensures r.Ok? ==> r.value == Text.Trim(v.value.s)
    ensures v.Some? && v.value.JStr? && r.Err? ==> r.error == Issue(["password"], PasswordFailure(v.value.s).value)
    ensures r.Err? ==> r.error.path == ["password"]
  {
    if v.Some? && v.value.JStr? then
      PasswordSteps(v.value.s);
      StringField(v, ["password"], None, PasswordChecks + [TrimStep])
    else StringField(v, ["password"], None, PasswordChecks + [TrimStep])
  }

  /** The register `name` field, length-checked before it is trimmed. */
  function DecodeRegisterName(v: Option<Json>): (r: Result<string, Issue>)
    ensures r.Ok? <==> v.Some? && v.value.JStr? && 1 <= Text.JsLength(v.value.s) <= 200
    ensures r.Ok? ==> r.value == Text.Trim(v.value.s)
    ensures r.Err? ==> r.error.path == ["name"]
  {
    if v.Some? && v.value.JStr? then
      MinMaxThenTrim(v.value.s, 1, "NAME_REQUIRED", 200, "NAME_TOO_LONG");
      StringField(v, ["name"], None, RegisterNameSteps)
    else StringField(v, ["name"], None, RegisterNameSteps)
  }

  lemma NonEmptyStep(s: string)
    ensures RunStrSteps([MinLen(1, "PASSWORD_REQUIRED")], s)
      == (if Text.JsLength(s) < 1 then Some("PASSWORD_REQUIRED") else None, s)
  {
    assert [MinLen(1, "PASSWORD_REQUIRED")] == [MinLen(1, "PASSWORD_REQUIRED")] + [];
    RunCons(MinLen(1, "PASSWORD_REQUIRED"), [], s);
  }

  /** The login `password` field: non-empty, kept as sent. */
  function DecodeLoginPassword(v: Option<Json>): (r: Result<string, Issue>)
    ensures r.Ok? <==> v.Some? && v.value.JStr? && Text.JsLength(v.value.s) >= 1
    ensures r.Ok? ==> r.value == v.value.s
    ensures r.Err? ==> r.error.path == ["password"]
  {
    if v.Some? && v.value.JStr? then
      NonEmptyStep(v.value.s);
      StringField(v, ["password"], None, [MinLen(1, "PASSWORD_REQUIRED")])
    else StringField(v, ["password"], None, [MinLen(1, "PASSWORD_REQUIRED")])
  }

  /** RegisterDTO: email, password and name in that order, then the strict
      key check, whose issue comes after any field issue. */
  function DecodeRegister(body: Json, isEmail: string -> bool): (r: Result<RegisterInput, Issue>)
    ensures r.Ok? <==>
      && body.JObj? && body.fields.Keys <= RegisterKeys
      && DecodeEmail(Get(body, "email"), isEmail).Ok?
      && DecodePassword(Get(body, "password")).Ok?
      && DecodeRegisterName(Get(body, "name")).Ok?
    ensures r.Ok? ==>
      var e, p, n := Get(body, "email"), Get(body, "password"), Get(body, "name");
      (&& e.Some? && e.value.JStr? && isEmail(e.value.s)
       && r.value.email == Text.ToLower(Text.Trim(e.value.s))
       && p.Some? && p.value.JStr? && PasswordFailure(p.value.s).None?
       && r.value.password == Text.Trim(p.value.s)
       && n.Some? && n.value.JStr? && 1 <= Text.JsLength(n.value.s) <= 200
       && r.value.name == Text.Trim(n.value.s))
    ensures !body.JObj? ==> r == Err(NotAnObject(body, []))
  {
    if !body.JObj? then Err(NotAnObject(body, []))
    else
      var email :- DecodeEmail(Get(body, "email"), isEmail);
      var password :- DecodePassword(Get(body, "password"));
      var name :- DecodeRegisterName(Get(body, "name"));
      if !(body.fields.Keys <= RegisterKeys) then Err(Issue([], UnrecognizedKeysMessage))
      else Ok(RegisterInput(email, password, name))
  }

  /** A body whose three fields are all valid is still refused when it
      carries any other key. */
  lemma RegisterIsStrict(body: Json, isEmail: string -> bool, extra: string)
    requires body.JObj? && extra in body.fields && extra !in RegisterKeys
    requires DecodeEmail(Get(body, "email"), isEmail).Ok?
    ensures DecodeRegister(body, isEmail).Err?
  {
  }

  /** A field issue is reported before the unknown-key issue: a missing email
      is what the caller hears about, whatever else the body holds. */
  lemma MissingEmailReportedFirst(body: Json, isEmail: string -> bool)
    requires body.JObj? && "email" !in body.fields
    ensures DecodeRegister(body, isEmail) == Err(Issue(["email"], "Required"))
  {
  }

  /** The password rules run in declaration order: a short password is
      reported as too short, whatever else is wrong with it. */
  lemma ShortPasswordReportedFirst(body: Json, isEmail: string -> bool)
    requires body.JObj? && DecodeEmail(Get(body, "email"), isEmail).Ok?
    requires Get(body, "password").Some? && Get(body, "password").value.JStr?
    requires Text.JsLength(Get(body, "password").value.s) < 8
    ensures DecodeRegister(body, isEmail) == Err(Issue(["password"], "PASSWORD_TOO_SHORT"))
  {
    var p := Get(body, "password");
    assert PasswordFailure(p.value.s) == Some("PASSWORD_TOO_SHORT");
    RegisterStopsAtPassword(body, isEmail);
  }

  /** With a valid email, a password issue is the one reported. */
  lemma RegisterStopsAtPassword(body: Json, isEmail: string -> bool)
    requires body.JObj? && DecodeEmail(Get(body, "email"), isEmail).Ok?
    requires DecodePassword(Get(body, "password")).Err?
    ensures DecodeRegister(body, isEmail) == Err(DecodePassword(Get(body, "password")).error)
  {
  }

  /** LoginDTO: the same email field; the password only has to be
      non-empty and is not trimmed here. Unknown keys are dropped. */
  function DecodeLogin(body: Json, isEmail: string -> bool): (r: Result<LoginInput, Issue>)
    ensures r.Ok? ==>
      var e, p := Get(body, "email"), Get(body, "password");
      (&& e.Some? && e.value.JStr? && isEmail(e.value.s)
       && r.value.email == Text.ToLower(Text.Trim(e.value.s))
       && p.Some? && p.value.JStr? && r.value.password == p.value.s && Text.JsLength(r.value.password) >= 1)
    ensures body.JObj? && DecodeEmail(Get(body, "email"), isEmail).Ok? ==>
      (r.Ok? <==> Get(body, "password").Some? && Get(body, "password").value.JStr? && Text.JsLength(Get(body, "password").value.s) >= 1)
    ensures !body.JObj? ==> r == Err(NotAnObject(body, []))
  {
    if !body.JObj? then Err(NotAnObject(body, []))
    else
      var email :- DecodeEmail(Get(body, "email"), isEmail);
      var password :- DecodeLoginPassword(Get(body, "password"));
      Ok(LoginInput(email, password))
  }
}
