/**
 * The User document: its email is stored trimmed and lowercased, its name
 * trimmed, and the password only as a bcrypt hash. bcrypt and JWT signing
 * are the functions of a `Crypto` value; `Sound` states all the model
 * assumes of them: a password matches its own hash, and a hash is never empty.
 */
module UserModel {
  import opened Wrappers
  import opened Text

  /** The bcrypt cost factor `setPassword` uses. */
  const SaltRounds: nat := 10

  /** Seven days, in seconds. */
  const WeekSeconds: nat := 7 * 24 * 60 * 60

  /** The claims of a session token; `exp` is a NumericDate (section 4.1.4 of RFC 7519): whole seconds. */
  datatype Claims = Claims(id: string, email: string, name: string, exp: int)

  /** bcrypt's `hash` and `compare`, and `jwt.sign` with a secret. */
  datatype Crypto = Crypto(
    hash: (string, nat) -> string,
    compare: (string, string) -> bool,
    sign: (Claims, string) -> string)

  /** A password matches the hash bcrypt made of it, and a hash is never empty. */
  ghost predicate Sound(c: Crypto) {
    forall p :: c.hash(p, SaltRounds) != "" && c.compare(p, c.hash(p, SaltRounds))
  }

  /** The schema's setters on `email`: `trim`, then `lowercase`. */
  function NormalizeEmail(email: string): (r: string)
    ensures |r| <= |email|
    ensures r != [] ==> !IsSpace(r[0]) && !IsSpace(r[|r| - 1])
    ensures forall k :: 0 <= k < |r| ==> !('A' <= r[k] <= 'Z')
  {
    LowerKeepsSpace(Trim(email));
    LowerHasNoUpper(Trim(email));
    Lower(Trim(email))
  }

  /** Lowering leaves no ASCII capital. */
  lemma {:induction false} LowerHasNoUpper(s: string)
    ensures forall k :: 0 <= k < |Lower(s)| ==> !('A' <= Lower(s)[k] <= 'Z')
  {
    if s != [] {
      LowerHasNoUpper(s[1..]);
      assert forall k :: 1 <= k < |s| ==> Lower(s)[k] == Lower(s[1..])[k - 1];
    }
  }

  /** Normalising an email that is already normalised changes nothing. */
  lemma NormalizeEmailIdempotent(email: string)
    ensures NormalizeEmail(NormalizeEmail(email)) == NormalizeEmail(email)
  {
    var t := Trim(email);
    LowerKeepsSpace(t);
    TrimOfTrimmed(Lower(t));
    LowerIdempotent(t);
  }

  /** Lowering changes no whitespace, so a trimmed text stays trimmed. */
  lemma {:induction false} LowerKeepsSpace(s: string)
    ensures forall k :: 0 <= k < |s| ==> IsSpace(Lower(s)[k]) == IsSpace(s[k])
  {
    if s != [] {
      LowerKeepsSpace(s[1..]);
      assert forall k :: 1 <= k < |s| ==> Lower(s)[k] == Lower(s[1..])[k - 1];
    }
  }

  /** A text with no whitespace at either end is its own trim. */
  lemma TrimOfTrimmed(s: string)
    requires s == [] || (!IsSpace(s[0]) && !IsSpace(s[|s| - 1]))
    ensures Trim(s) == s
  {
    if s != [] {
      assert LeadingSpace(s) == 0;
      assert TrailingSpace(s) == 0;
    }
  }

  /**
   * `parseInt(expiry.getTime() / 1000, 10)` for `expiry` seven days after
   * `nowMs`: whole seconds, rounded down for a time after 1970.
   */
  function Expiry(nowMs: nat): (exp: nat)
    ensures exp * 1000 <= nowMs + WeekSeconds * 1000 < (exp + 1) * 1000
  {
    (nowMs + WeekSeconds * 1000) / 1000
  }

  /** The token expires exactly one week of seconds after the current second. */
  lemma ExpiryIsAWeekAway(nowMs: nat)
    ensures Expiry(nowMs) == nowMs / 1000 + WeekSeconds
  {
    var q, r := nowMs / 1000, nowMs % 1000;
    assert nowMs + WeekSeconds * 1000 == (q + WeekSeconds) * 1000 + r;
  }

  /** A user document while the route works on it. */
  class User {
    var id: string
    var email: string
    var name: string
    var hash: Option<string>

    /** `new User({ name, email })`: the schema's setters apply at once; `id` is the new `_id`. */
    constructor (id: string, name: string, email: string)
      ensures this.id == id && this.email == NormalizeEmail(email) && this.name == Trim(name)
      ensures hash == None
    {
      this.id := id;
      this.email := NormalizeEmail(email);
      this.name := Trim(name);
      hash := None;
    }

    /**
     * `setPassword`: a falsy password throws (`ok` is false) and leaves the
     * hash alone; otherwise only the hash changes, to the cost-10 hash of
     * the password, which then validates.
     */
    method SetPassword(password: Option<string>, crypto: Crypto) returns (ok: bool)
      modifies this
      ensures ok <==> Truthy(password)
      ensures hash == if ok then Some(crypto.hash(password.value, SaltRounds)) else old(hash)
      ensures id == old(id) && email == old(email) && name == old(name)
      ensures ok && Sound(crypto) ==> ValidPassword(password, crypto)
    {
      if !Truthy(password) {
        return false;
      }
      hash := Some(crypto.hash(password.value, SaltRounds));
      ok := true;
    }

    /** `validPassword`: false for a falsy password or a missing hash, else bcrypt's verdict. */
    function ValidPassword(password: Option<string>, crypto: Crypto): (r: bool)
      reads this
      ensures r ==> Truthy(password) && hash.Some?
      ensures !Truthy(hash) ==> !r
      ensures Truthy(password) && Truthy(hash) ==> (r <==> crypto.compare(password.value, hash.value))
    {
      Truthy(password) && Truthy(hash) && crypto.compare(password.value, hash.value)
    }

    /**
     * `generateJwt`: fails without a secret; otherwise signs the id, email
     * and name with an `exp` a week after `nowMs`.
     */
    function GenerateJwt(nowMs: nat, secret: Option<string>, crypto: Crypto): (token: Option<string>)
      reads this
      ensures token.None? <==> !Truthy(secret)
      ensures token.Some? ==>
        token.value == crypto.sign(Claims(id, email, name, nowMs / 1000 + WeekSeconds), secret.value)
    {
      ExpiryIsAWeekAway(nowMs);
      if !Truthy(secret) then None
      else Some(crypto.sign(Claims(id, email, name, Expiry(nowMs)), secret.value))
    }

    /** Two instants within the same second give the same token. */
    lemma SameSecondSameToken(t1: nat, t2: nat, secret: Option<string>, crypto: Crypto)
      requires t1 / 1000 == t2 / 1000
      ensures GenerateJwt(t1, secret, crypto) == GenerateJwt(t2, secret, crypto)
    {
      ExpiryIsAWeekAway(t1);
      ExpiryIsAWeekAway(t2);
    }
  }
}
