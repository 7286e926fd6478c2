/**
 * Accounts and tokens (shared/src/auth.rs): the expiry arithmetic of token
 * generation, the expiry check of token validation, users with an active
 * flag and a last-login time, and the in-memory user store.
 *
 * bcrypt hashing and verification and JWT encoding and decoding are foreign
 * calls: each is a function parameter whose result, success or library
 * error, the model passes on exactly as the code does. Clock reads are the
 * `now` parameter, a fresh token id the `jti` parameter.
 */
module Auth {
  import opened Wrappers
  import opened Protocol

  const NanosPerSecond: int := 1_000_000_000
  const SecondsPerHour: int := 3600

  /** The JWT claims. `exp` and `iat` are whole seconds since the epoch. */
  datatype Claims = Claims(
    sub: string,
    clientType: string,
    clientId: Option<string>,
    exp: int,
    iat: int,
    jti: string)

  /** `AuthError`; a library error is carried as its message. */
  datatype AuthError =
    | InvalidCredentials
    | TokenExpired
    | InvalidToken
    | JwtEncoding(reason: string)
    | PasswordHashing(reason: string)

  /** The part of `AuthManager` the logic reads; the keys live inside the JWT parameters. */
  datatype AuthManager = AuthManager(tokenExpiryHours: int)

  /** chrono's `timestamp()`: whole seconds, rounded toward negative infinity. */
  function Timestamp(t: DateTime): (secs: int)
    ensures secs * NanosPerSecond <= t < (secs + 1) * NanosPerSecond
  {
    t / NanosPerSecond
  }

  /** Adding whole seconds to an instant adds them to its timestamp. */
  lemma TimestampShift(t: DateTime, secs: int)
    ensures Timestamp(t + secs * NanosPerSecond) == Timestamp(t) + secs
  {
    var q := Timestamp(t);
    var u := t + secs * NanosPerSecond;
    assert (q + secs) * NanosPerSecond <= u < (q + secs + 1) * NanosPerSecond;
  }

  /**
   * The claims `generate_token` signs at instant `now`: issued now, and
   * expiring exactly `token_expiry_hours` hours later.
   */
  function TokenClaims(mgr: AuthManager, username: string, clientType: string, clientId: Option<string>,
                       now: DateTime, jti: string): (c: Claims)
    ensures c.iat == Timestamp(now)
    ensures c.exp == c.iat + mgr.tokenExpiryHours * SecondsPerHour
    ensures c.sub == username && c.clientType == clientType && c.clientId == clientId && c.jti == jti
  {
    var expiry := now + mgr.tokenExpiryHours * SecondsPerHour * NanosPerSecond;
    TimestampShift(now, mgr.tokenExpiryHours * SecondsPerHour);
    Claims(username, clientType, clientId, Timestamp(expiry), Timestamp(now), jti)
  }

  /** `generate_token`: the signed claims, or the encoder's error. */
  function GenerateToken(mgr: AuthManager, username: string, clientType: string, clientId: Option<string>,
                         now: DateTime, jti: string, encode: Claims -> Result<string, string>): (r: Result<string, AuthError>)
    ensures var c := TokenClaims(mgr, username, clientType, clientId, now, jti);
      match encode(c)
      case Ok(token) => r == Ok(token)
      case Err(e) => r == Err(JwtEncoding(e))
  {
    match encode(TokenClaims(mgr, username, clientType, clientId, now, jti))
    case Ok(token) => Ok(token)
    case Err(e) => Err(JwtEncoding(e))
  }

  /**
   * `validate_token`: a decoder error passes through as `JwtEncoding`;
   * decoded claims whose `exp` is before the current second are
   * `TokenExpired`; any other decoded claims are returned.
   */
  function ValidateToken(token: string, decode: string -> Result<Claims, string>, now: DateTime): (r: Result<Claims, AuthError>)
    ensures r == Err(TokenExpired) <==> decode(token).Ok? && decode(token).value.exp < Timestamp(now)
    ensures r.Ok? <==> decode(token).Ok? && decode(token).value.exp >= Timestamp(now)
    ensures r.Ok? ==> r.value == decode(token).value
    ensures decode(token).Err? ==> r == Err(JwtEncoding(decode(token).error))
  {
    match decode(token)
    case Err(e) => Err(JwtEncoding(e))
    case Ok(claims) => if claims.exp < Timestamp(now) then Err(TokenExpired) else Ok(claims)
  }

  /**
   * A token the decoder reads back as the claims it was signed from is
   * accepted up to and including its expiry second and reported expired
   * from the next second on.
   */
  lemma TokenLifetime(mgr: AuthManager, username: string, clientType: string, clientId: Option<string>,
                      issued: DateTime, jti: string, encode: Claims -> Result<string, string>,
                      decode: string -> Result<Claims, string>, later: DateTime)
    requires var c := TokenClaims(mgr, username, clientType, clientId, issued, jti);
      encode(c).Ok? && decode(encode(c).value) == Ok(c)
    ensures var r := GenerateToken(mgr, username, clientType, clientId, issued, jti, encode);
      && r.Ok?
      && ((Timestamp(later) <= Timestamp(issued) + mgr.tokenExpiryHours * SecondsPerHour)
          <==> ValidateToken(r.value, decode, later) == Ok(TokenClaims(mgr, username, clientType, clientId, issued, jti)))
      && ((Timestamp(later) > Timestamp(issued) + mgr.tokenExpiryHours * SecondsPerHour)
          <==> ValidateToken(r.value, decode, later) == Err(TokenExpired))
  {
  }

  /** A stored account. */
  datatype User = User(
    username: string,
    passwordHash: string,
    createdAt: DateTime,
    lastLogin: Option<DateTime>,
    active: bool)

  /** `User::new`: an active account that has never logged in, or the hasher's error. */
  function NewUser(username: string, password: string, hash: string -> Result<string, string>, now: DateTime)
    : (r: Result<User, AuthError>)
    ensures r.Ok? <==> hash(password).Ok?
    ensures r.Ok? ==> && r.value.username == username && r.value.active && r.value.lastLogin == None
                      && r.value.passwordHash == hash(password).value && r.value.createdAt == now
    ensures r.Err? ==> r.error == PasswordHashing(hash(password).error)
  {
    match hash(password)
    case Err(e) => Err(PasswordHashing(e))
    case Ok(h) => Ok(User(username, h, now, None, true))
  }

  /**
   * `User::verify_password`: an inactive account answers `false` without
   * consulting the hash; an active one answers what the verifier answers.
   */
  function VerifyPassword(user: User, password: string, verify: (string, string) -> Result<bool, string>)
    : (r: Result<bool, AuthError>)
    ensures !user.active ==> r == Ok(false)
    ensures r == Ok(true) <==> user.active && verify(password, user.passwordHash) == Ok(true)
    ensures r.Err? <==> user.active && verify(password, user.passwordHash).Err?
  {
    if !user.active then Ok(false)
    else match verify(password, user.passwordHash)
      case Err(e) => Err(PasswordHashing(e))
      case Ok(valid) => Ok(valid)
  }

  /** `User::update_last_login`: only the last-login time changes. */
  function UpdateLastLogin(user: User, now: DateTime): (u: User)
    ensures u.lastLogin == Some(now)
    ensures u.username == user.username && u.passwordHash == user.passwordHash
    ensures u.createdAt == user.createdAt && u.active == user.active
  {
    user.(lastLogin := Some(now))
  }

  /** The in-memory user store: accounts by username. */
  class UserStore {
    var users: map<string, User>

    /** Every account is filed under its own username. */
    ghost predicate Valid()
      reads this
    {
      forall name :: name in users ==> users[name].username == name
    }

    /** `UserStore::new`. */
    constructor ()
      ensures Valid() && users == map[]
    {
      users := map[];
    }

    /** `add_user`: files the account under its username, replacing any account of that name. */
    method AddUser(user: User)
      requires Valid()
      modifies this
      ensures Valid()
      ensures users == old(users)[user.username := user]
      ensures GetUser(user.username) == Some(user)
    {
      users := users[user.username := user];
    }

    /** `get_user`. */
    function GetUser(username: string): (r: Option<User>)
      requires Valid()
      reads this
      ensures r.Some? <==> username in users
      ensures r.Some? ==> r.value.username == username && r.value == users[username]
    {
      if username in users then Some(users[username]) else None
    }

    /**
     * `authenticate`: an unknown name is `Ok(false)`; otherwise the
     * account's `verify_password` answer, and only a `true` answer records
     * the login time. Nothing else in the store changes.
     */
    method Authenticate(username: string, password: string, verify: (string, string) -> Result<bool, string>, now: DateTime)
      returns (r: Result<bool, AuthError>)
      requires Valid()
      modifies this
      ensures Valid()
      ensures username !in old(users) ==> r == Ok(false)
      ensures username in old(users) ==> r == VerifyPassword(old(users)[username], password, verify)
      ensures r == Ok(true) ==> && username in old(users) && old(users)[username].active
                                && verify(password, old(users)[username].passwordHash) == Ok(true)
      ensures r == Ok(true) ==> users == old(users)[username := UpdateLastLogin(old(users)[username], now)]
      ensures r != Ok(true) ==> users == old(users)
    {
      var found := GetUser(username);
      if found.None? {
        return Ok(false);
      }
      var user := found.value;
      r := VerifyPassword(user, password, verify);
      if r == Ok(true) {
        users := users[username := UpdateLastLogin(user, now)];
      }
    }

    /** `create_default_admin`: adds the `admin` account, or reports the hasher's error and changes nothing. */
    method CreateDefaultAdmin(hash: string -> Result<string, string>, now: DateTime) returns (r: Result<(), AuthError>)
      requires Valid()
      modifies this
      ensures Valid()
      ensures r.Ok? <==> hash("admin123").Ok?
      ensures r.Ok? ==> users == old(users)["admin" := NewUser("admin", "admin123", hash, now).value]
      ensures r.Err? ==> r.error == PasswordHashing(hash("admin123").error) && users == old(users)
    {
      var created := NewUser("admin", "admin123", hash, now);
      match created {
        case Err(e) =>
          return Err(e);
        case Ok(admin) =>
          AddUser(admin);
          return Ok(());
      }
    }
  }

  /**
   * A deactivated account never authenticates, whatever the password and
   * the verifier, and its record stays as it was.
   */
  method InactiveUserIsRejected(user: User, password: string, verify: (string, string) -> Result<bool, string>, now: DateTime)
    returns (store: UserStore, r: Result<bool, AuthError>)
    requires !user.active
    ensures r == Ok(false)
    ensures store.users == map[user.username := user]
  {
    store := new UserStore();
    store.AddUser(user);
    r := store.Authenticate(user.username, password, verify, now);
  }
}
