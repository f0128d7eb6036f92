/** Registration and login. The library calls are parameters: `salted` is
    bcrypt's hash of a password under the salt the call draws, `compare` is
    bcrypt's check of a password against a stored hash, and `sign` issues a
    JWT for an id and a role under the secret and clock of the call. */
module AuthService {
  import opened Wrappers
  import opened Tables
  import opened AppErrors
  import Text
  import AuthDto
  import AuthRepository

  datatype Crypto = Crypto(compare: (string, string) -> bool, sign: (int, Role) -> string)

  /** The body of a successful registration: the user is only id and role. */
  datatype Registered = Registered(token: string, user: AuthRepository.IdAndRole, expiresIn: real)

  /** The body of a successful login: the whole user row, password hash
      included. */
  datatype LoggedIn = LoggedIn(token: string, user: UserRow, expiresIn: real)

  /** A registration of the same e-mail that a concurrent request completes
      between the e-mail check and the insert. */
  datatype Registration = Registration(name: string, hash: string)

  const EmailInUse := Raise("Email already in use", 409, "EMAIL_IN_USE")
  const InvalidCredentials := Raise("Invalid credentials", 401, "INVALID_CREDENTIALS")

  /** EXPIRES_IN: `Number(JWT_EXPIRES_IN) || 604800`, with `configured` the
      number the variable converts to (None when it is unset or not a
      number); zero is falsy and also falls back to seven days. */
  function ExpiresIn(configured: Option<real>): (s: real)
    ensures s != 0.0
    ensures configured.Some? && configured.value != 0.0 ==> s == configured.value
    ensures configured.None? || configured.value == 0.0 ==> s == 604800.0
  {
    if configured.Some? && configured.value != 0.0 then configured.value else 604800.0
  }

  /** The e-mail as the service stores and looks it up. */
  function NormalEmail(email: string): string {
    Text.ToLower(Text.Trim(email))
  }

  /** `name || email.split("@")[0]`: a blank name falls back to the part of
      the e-mail before its first '@'. */
  function DisplayName(name: string, email: string): (n: string)
    ensures name != "" ==> n == name
    ensures name == "" ==> n == Text.Split(email, '@')[0]
  {
    if name != "" then name else Text.Split(email, '@')[0]
  }

  /** The row registerUser inserts. */
  function NewUser(t: Tables, data: AuthDto.RegisterInput, salted: string -> string): UserRow {
    var email := NormalEmail(data.email);
    UserRow(t.nextUserId, DisplayName(Text.Trim(data.name), email), email, salted(Text.Trim(data.password)), UserRole)
  }

  /** The row a concurrent registration of the same e-mail inserts when it
      wins the race between the e-mail check and the insert. */
  function RivalUser(t: Tables, data: AuthDto.RegisterInput, rival: Registration): UserRow {
    UserRow(t.nextUserId, rival.name, NormalEmail(data.email), rival.hash, UserRole)
  }

  /** The tables after a registration: unchanged when the normalised e-mail
      is taken; otherwise one USER row more, the rival's when a concurrent
      registration of the same e-mail landed first, the new user's if not. */
  function AfterRegistration(t: Tables, data: AuthDto.RegisterInput, salted: string -> string, rival: Option<Registration>): Tables {
    if AuthRepository.EmailExists(t, NormalEmail(data.email)) then t
    else
      var row := if rival.Some? then RivalUser(t, data, rival.value) else NewUser(t, data, salted);
      t.(users := t.users + [row], nextUserId := t.nextUserId + 1)
  }

  /** registerUser: 409 when the normalised e-mail is taken; otherwise one
      USER row with the hashed password, and a token for its id and role.
      When a concurrent registration of the same e-mail lands first, the
      UNIQUE constraint fails the insert and the request fails with it. */
  method RegisterUser(
    db: Database, data: AuthDto.RegisterInput, salted: string -> string, crypto: Crypto,
    configured: Option<real>, rival: Option<Registration>)
    returns (r: Result<Registered, Failure>)
    modifies db
    requires Valid(db.State())
    ensures Valid(db.State())
    ensures db.State() == AfterRegistration(old(db.State()), data, salted, rival)
    ensures AuthRepository.EmailExists(old(db.State()), NormalEmail(data.email)) ==> r == Err(EmailInUse)
    ensures !AuthRepository.EmailExists(old(db.State()), NormalEmail(data.email)) && rival.Some? ==> r == Err(OtherFailure)
    ensures !AuthRepository.EmailExists(old(db.State()), NormalEmail(data.email)) && rival.None? ==>
      r == Ok(Registered(
           crypto.sign(old(db.nextUserId), UserRole),
           AuthRepository.IdAndRole(old(db.nextUserId), UserRole),
           ExpiresIn(configured)))
  {
    var before := db.State();
    var email := Text.ToLower(Text.Trim(data.email));
    var password := Text.Trim(data.password);
    var name := Text.Trim(data.name);
    if AuthRepository.EmailExists(db.State(), email) {
      return Err(EmailInUse);
    }
    var hash := salted(password);
    if rival.Some? {
      var _ := AuthRepository.CreateUser(db, rival.value.name, email, rival.value.hash);
      assert db.users[|db.users| - 1].email == email;
    }
    var created := AuthRepository.CreateUser(db, DisplayName(name, email), email, hash);
    if created.Err? {
      return Err(created.error);
    }
    assert NewUser(before, data, salted) == UserRow(before.nextUserId, DisplayName(name, email), email, hash, UserRole);
    RegisteredRowFound(before, data, salted);
    var user := AuthRepository.FindUserBasic(db.State(), email);
    if user.None? {
      // The 500 USER_CREATION_FAILED of the read-back: the row just
      // inserted carries this e-mail, so it is always found.
      assert false;
    }
    var token := crypto.sign(user.value.id, user.value.role);
    r := Ok(Registered(token, user.value, ExpiresIn(configured)));
  }

  /** After a registration, the read-back by e-mail finds the new row. */
  lemma RegisteredRowFound(t: Tables, data: AuthDto.RegisterInput, salted: string -> string)
    requires Valid(t) && !AuthRepository.EmailExists(t, NormalEmail(data.email))
    ensures var after := t.(users := t.users + [NewUser(t, data, salted)], nextUserId := t.nextUserId + 1);
      (&& Valid(after)
       && AuthRepository.FindUserByEmail(after, NormalEmail(data.email)) == Some(NewUser(t, data, salted))
       && AuthRepository.FindUserBasic(after, NormalEmail(data.email))
          == Some(AuthRepository.IdAndRole(t.nextUserId, UserRole)))
  {
    var row := NewUser(t, data, salted);
    assert forall i :: 0 <= i < |t.users| ==> t.users[i].email != row.email;
    AuthRepository.CreatedUserFound(t, row);
  }

  /** loginUser: the row of the normalised e-mail, when the trimmed password
      matches its hash; an unknown e-mail and a wrong password give the same
      401. */
  function LoginUser(t: Tables, data: AuthDto.LoginInput, crypto: Crypto, configured: Option<real>): (r: Result<LoggedIn, Failure>)
    ensures r.Err? ==> r.error == InvalidCredentials
    ensures !AuthRepository.EmailExists(t, NormalEmail(data.email)) ==> r.Err?
    ensures r.Ok? ==>
      && crypto.compare(Text.Trim(data.password), r.value.user.password)
      && r.value.user in t.users
      && r.value.user.email == NormalEmail(data.email)
      && r.value.token == crypto.sign(r.value.user.id, r.value.user.role)
      && r.value.expiresIn == ExpiresIn(configured)
  {
    var email := Text.ToLower(Text.Trim(data.email));
    var password := Text.Trim(data.password);
    match AuthRepository.FindUserByEmail(t, email)
    case None => Err(InvalidCredentials)
    case Some(user) =>
      if !crypto.compare(password, user.password) then Err(InvalidCredentials)
      else Ok(LoggedIn(crypto.sign(user.id, user.role), user, ExpiresIn(configured)))
  }

  /** Whoever registers can log in: with the same e-mail up to case and
      surrounding blanks, the same password up to surrounding blanks, and a
      bcrypt that accepts a password against its own hash, the login finds
      the new USER row. */
  lemma RegisterThenLogin(
    t: Tables, reg: AuthDto.RegisterInput, salted: string -> string, crypto: Crypto,
    configured: Option<real>, login: AuthDto.LoginInput)
    requires Valid(t) && !AuthRepository.EmailExists(t, NormalEmail(reg.email))
    requires NormalEmail(login.email) == NormalEmail(reg.email)
    requires Text.Trim(login.password) == Text.Trim(reg.password)
    requires crypto.compare(Text.Trim(reg.password), salted(Text.Trim(reg.password)))
    ensures var after := t.(users := t.users + [NewUser(t, reg, salted)], nextUserId := t.nextUserId + 1);
      (&& LoginUser(after, login, crypto, configured).Ok?
       && LoginUser(after, login, crypto, configured).value.user == NewUser(t, reg, salted))
  {
    RegisteredRowFound(t, reg, salted);
  }

  /** In a valid table the login of an existing e-mail hinges on the
      password alone, and succeeds with that user's row. */
  lemma LoginOfKnownUser(t: Tables, u: UserRow, data: AuthDto.LoginInput, crypto: Crypto, configured: Option<real>)
    requires Valid(t) && u in t.users && u.email == NormalEmail(data.email)
    ensures LoginUser(t, data, crypto, configured).Ok? <==> crypto.compare(Text.Trim(data.password), u.password)
    ensures LoginUser(t, data, crypto, configured).Ok? ==> LoginUser(t, data, crypto, configured).value.user == u
  {
    AuthRepository.EmailFindsTheOnlyRow(t, u.email, u);
  }

  /** A second registration of the same e-mail, in any case and with any
      surrounding blanks, is refused with 409. */
  lemma SecondRegistrationRefused(t: Tables, first: AuthDto.RegisterInput, second: AuthDto.RegisterInput, salted: string -> string)
    requires NormalEmail(second.email) == NormalEmail(first.email)
    ensures AuthRepository.EmailExists(
      t.(users := t.users + [NewUser(t, first, salted)], nextUserId := t.nextUserId + 1), NormalEmail(second.email))
  {
    var after := t.(users := t.users + [NewUser(t, first, salted)], nextUserId := t.nextUserId + 1);
    assert after.users[|after.users| - 1].email == NormalEmail(second.email);
  }
}
