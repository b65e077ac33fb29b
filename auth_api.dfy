/**
 * The login and register routes over the user collection. The collection is
 * keyed by the normalised email, the form in which the schema stores it and
 * in which it reads the `email` of a query. A successful call answers with a
 * signed token and sets it as the session cookie.
 */
module AuthApi {
  import opened Wrappers
  import opened Text
  import opened UserModel

  /** The session cookie's name, and its lifetime in seconds: the `Max-Age` of section 5.2.2 of RFC 6265. */
  const CookieName := "travlr-token"
  const CookieMaxAge: nat := 60 * 60 * 24 * 7

  datatype Cookie = Cookie(
    name: string,
    value: string,
    httpOnly: bool,
    secure: bool,
    maxAge: nat,
    path: string,
    sameSite: string)

  /** The process environment and the clock the routes read. */
  datatype Env = Env(jwtSecret: Option<string>, nodeEnv: Option<string>, nowMs: nat)

  /** The session cookie both routes set: HTTP-only, site-wide, `lax`, a week long, secure outside development. */
  function SessionCookie(token: string, env: Env): (c: Cookie)
    ensures c.name == CookieName && c.value == token
    ensures c.httpOnly && c.path == "/" && c.sameSite == "lax"
    ensures c.maxAge == WeekSeconds
    ensures c.secure <==> env.nodeEnv != Some("development")
  {
    Cookie(CookieName, token, true, env.nodeEnv != Some("development"), CookieMaxAge, "/", "lax")
  }

  /** A route's answer: an error status and message, or success with the token and the cookie set. */
  datatype AuthReply =
    | Failed(status: nat, message: string)
    | Success(status: nat, message: string, token: string, cookie: Cookie)

  const LoginFieldsMessage := "Email and password are required"
  const InvalidCredentials := "Invalid credentials"
  const RegisterFieldsMessage := "All fields are required"
  const ExistsMessage := "User already exists"
  const ValidationMessage := "Validation Error"
  const ServerErrorMessage := "Internal server error"

  /** The user collection. */
  class UserStore {
    var users: map<string, User>

    /** Each document sits under its own email, and the schema's required fields are non-empty. */
    ghost predicate Valid()
      reads this, users.Values
    {
      forall e :: e in users ==> users[e].email == e && e != "" && users[e].name != ""
    }

    constructor ()
      ensures Valid() && users == map[]
    {
      users := map[];
    }

    /**
     * `POST /api/auth/login`. It changes nothing (no `modifies`). A missing
     * field is a 400; an unknown email and a wrong password give the very
     * same 401, so a caller cannot tell them apart; a valid login without a
     * secret is a 500; otherwise a 200 with the user's token, set as the
     * session cookie.
     */
    method Login(email: Option<string>, password: Option<string>, env: Env, crypto: Crypto) returns (r: AuthReply)
      requires Valid()
      ensures !Truthy(email) || !Truthy(password) ==> r == Failed(400, LoginFieldsMessage)
      ensures Truthy(email) && Truthy(password) && NormalizeEmail(email.value) !in users ==>
        r == Failed(401, InvalidCredentials)
      ensures (Truthy(email) && Truthy(password) && NormalizeEmail(email.value) in users
                 && !users[NormalizeEmail(email.value)].ValidPassword(password, crypto)) ==>
        r == Failed(401, InvalidCredentials)
      ensures (Truthy(email) && Truthy(password) && NormalizeEmail(email.value) in users
                 && users[NormalizeEmail(email.value)].ValidPassword(password, crypto) && !Truthy(env.jwtSecret)) ==>
        r == Failed(500, ServerErrorMessage)
      ensures r.Success? <==>
        Truthy(email) && Truthy(password) && NormalizeEmail(email.value) in users
        && users[NormalizeEmail(email.value)].ValidPassword(password, crypto) && Truthy(env.jwtSecret)
      ensures r.Success? ==>
        var user := users[NormalizeEmail(email.value)];
        && r.status == 200 && r.message == "Login successful"
        && Some(r.token) == user.GenerateJwt(env.nowMs, env.jwtSecret, crypto)
        && r.token == crypto.sign(Claims(user.id, user.email, user.name, env.nowMs / 1000 + WeekSeconds), env.jwtSecret.value)
        && r.cookie == SessionCookie(r.token, env)
      ensures r.Failed? ==> r.status in {400, 401, 500}
    {
      if !Truthy(email) || !Truthy(password) {
        return Failed(400, LoginFieldsMessage);
      }
      var key := NormalizeEmail(email.value);
      if key !in users {
        return Failed(401, InvalidCredentials);
      }
      var user := users[key];
      if !user.ValidPassword(password, crypto) {
        return Failed(401, InvalidCredentials);
      }
      var token := user.GenerateJwt(env.nowMs, env.jwtSecret, crypto);
      if token.None? {
        return Failed(500, ServerErrorMessage);
      }
      return Success(200, "Login successful", token.value, SessionCookie(token.value, env));
    }

    /**
     * `POST /api/auth/register`. A missing field is a 400 and a taken email a
     * 409; a name or email that is blank once trimmed fails the schema with
     * a 400; in those cases nothing changes. Otherwise exactly one user is
     * added, under its normalised email, with the trimmed name and the hash
     * of the password; the reply is a 201 with its token, or a 500 when
     * there is no secret to sign it with (the user stays stored).
     */
    method Register(name: Option<string>, email: Option<string>, password: Option<string>,
                    env: Env, crypto: Crypto, freshId: string) returns (r: AuthReply)
      requires Valid()
      modifies this
      ensures Valid()
      ensures !Truthy(name) || !Truthy(email) || !Truthy(password) ==>
        r == Failed(400, RegisterFieldsMessage) && users == old(users)
      ensures Truthy(name) && Truthy(email) && Truthy(password) && NormalizeEmail(email.value) in old(users) ==>
        r == Failed(409, ExistsMessage) && users == old(users)
      ensures (Truthy(name) && Truthy(email) && Truthy(password) && NormalizeEmail(email.value) !in old(users)
                 && (Trim(name.value) == "" || NormalizeEmail(email.value) == "")) ==>
        r == Failed(400, ValidationMessage) && users == old(users)
      ensures users != old(users) <==>
        Truthy(name) && Truthy(email) && Truthy(password) && NormalizeEmail(email.value) !in old(users)
        && Trim(name.value) != "" && NormalizeEmail(email.value) != ""
      ensures users != old(users) <==> r.Success? || r == Failed(500, ServerErrorMessage)
      ensures users != old(users) ==>
        var key := NormalizeEmail(email.value);
        && users.Keys == old(users).Keys + {key}
        && key !in old(users)
        && (forall e :: e in old(users) ==> users[e] == old(users[e]))
        && fresh(users[key])
        && users[key].id == freshId && users[key].email == key && users[key].name == Trim(name.value)
        && users[key].hash == Some(crypto.hash(password.value, SaltRounds))
        && (Sound(crypto) ==> users[key].ValidPassword(password, crypto))
      ensures r.Success? <==> users != old(users) && Truthy(env.jwtSecret)
      ensures r.Success? ==>
        var user := users[NormalizeEmail(email.value)];
        && r.status == 201 && r.message == "Registration successful"
        && Some(r.token) == user.GenerateJwt(env.nowMs, env.jwtSecret, crypto)
        && r.cookie == SessionCookie(r.token, env)
    {
      if !Truthy(name) || !Truthy(email) || !Truthy(password) {
        return Failed(400, RegisterFieldsMessage);
      }
      var key := NormalizeEmail(email.value);
      if key in users {
        return Failed(409, ExistsMessage);
      }
      var user := new User(freshId, name.value, email.value);
      var ok := user.SetPassword(password, crypto);
      assert ok;
      if user.name == "" || user.email == "" {
        return Failed(400, ValidationMessage);
      }
      users := users[key := user];
      var token := user.GenerateJwt(env.nowMs, env.jwtSecret, crypto);
      if token.None? {
        return Failed(500, ServerErrorMessage);
      }
      return Success(201, "Registration successful", token.value, SessionCookie(token.value, env));
    }

    /**
     * Registering and then logging in, at any later instant, with the same
     * email and password succeeds, given a sound bcrypt and the same secret.
     * The login's token signs the registered identity with an expiry a week
     * after the login; within the registration's own second it is the very
     * token the registration returned.
     */
    method RegisterThenLogin(name: string, email: string, password: string, env: Env, later: Env,
                             crypto: Crypto, freshId: string)
      returns (registered: AuthReply, loggedIn: AuthReply)
      requires Valid() && Sound(crypto) && Truthy(env.jwtSecret) && later.jwtSecret == env.jwtSecret
      requires name != "" && email != "" && password != ""
      requires Trim(name) != "" && NormalizeEmail(email) != "" && NormalizeEmail(email) !in users
      modifies this
      ensures registered.Success? && registered.status == 201
      ensures loggedIn.Success? && loggedIn.status == 200
      ensures loggedIn.token ==
        crypto.sign(Claims(freshId, NormalizeEmail(email), Trim(name), later.nowMs / 1000 + WeekSeconds), env.jwtSecret.value)
      ensures later.nowMs / 1000 == env.nowMs / 1000 ==> loggedIn.token == registered.token
    {
      registered := Register(Some(name), Some(email), Some(password), env, crypto, freshId);
      loggedIn := Login(Some(email), Some(password), later, crypto);
      if later.nowMs / 1000 == env.nowMs / 1000 {
        users[NormalizeEmail(email)].SameSecondSameToken(env.nowMs, later.nowMs, env.jwtSecret, crypto);
      }
    }
  }
}
