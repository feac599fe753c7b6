/** Accounts: password hashing, access tokens, registration and login. The hash function,
    the token codec and the clock are the collaborators' and come in as parameters. */
module Accounts {
  import opened Wrappers
  import opened Http
  import opened Database

  const AccessTokenExpireMinutes := 60
  const TokenType := "bearer"

  /** The claims of an access token: the subject, if any, and the expiry as seconds since the epoch. */
  datatype Claims = Claims(sub: Option<string>, exp: int)

  /** The foreign library calls: SHA-256 as hex text, and signing and checking a token
      with the server's secret and algorithm (`decode` yields `None` where it would raise). */
  datatype Crypto = Crypto(sha256Hex: string -> string, encode: Claims -> string, decode: string -> Option<Claims>)

  /** The body of a successful register or login. */
  datatype Token = Token(accessToken: string, tokenType: string)

  /** `hash_password`: the collaborator's SHA-256 hex digest of the password. */
  function HashPassword(c: Crypto, password: string): (h: string)
    ensures h == c.sha256Hex(password)
  {
    c.sha256Hex(password)
  }

  /** `verify_password`: the password hashes to the stored text. */
  function VerifyPassword(c: Crypto, password: string, hashed: string): (ok: bool)
    ensures ok <==> HashPassword(c, password) == hashed
  {
    HashPassword(c, password) == hashed
  }

  /** A password always verifies against its own hash. */
  lemma VerifyOwnHash(c: Crypto, password: string)
    ensures VerifyPassword(c, password, HashPassword(c, password))
  {
  }

  /** `create_access_token` for subject `sub` at time `now` (seconds since the epoch):
      the token expires 60 minutes later. */
  function CreateAccessToken(c: Crypto, sub: string, now: int): (t: string)
    ensures exists claims :: t == c.encode(claims) && claims.sub == Some(sub) && claims.exp == now + 3600
  {
    c.encode(Claims(Some(sub), now + AccessTokenExpireMinutes * 60))
  }

  /** `get_current_user`: the token's subject, or 401 when the token does not decode or
      names no subject. */
  function GetCurrentUser(c: Crypto, token: string): (r: Result<string, HttpError>)
    ensures r.Ok? <==> c.decode(token).Some? && c.decode(token).value.sub.Some?
    ensures r.Ok? ==> r.value == c.decode(token).value.sub.value
    ensures r.Err? ==> r.error == InvalidCredentials
  {
    match c.decode(token)
    case None => Err(InvalidCredentials)
    case Some(claims) =>
      match claims.sub
      case None => Err(InvalidCredentials)
      case Some(username) => Ok(username)
  }

  /** `register`, given the fresh `uuid4` text, the clock's ISO timestamp for the row and the
      clock in seconds for the token. The insert fails on a taken username (or, as the same
      integrity error, a taken user id); then nothing is stored. Otherwise exactly one user is
      added with the hashed password, and a token for that username is returned. */
  function Register(db: Db, c: Crypto, username: string, password: string, userId: string, createdAt: string, now: int)
    : (r: Reply<Token>)
    ensures r.result.Err? <==> username in db.users || userId in UserIds(db.users)
    ensures r.result.Err? ==> r.result.error == UsernameExists && r.db == db
    ensures r.result.Ok? ==>
              && r.db.users.Keys == db.users.Keys + {username}
              && username !in db.users
              && r.db.users[username] == UserRow(userId, HashPassword(c, password), createdAt)
              && (forall u :: u in db.users ==> r.db.users[u] == db.users[u])
              && r.result.value == Token(CreateAccessToken(c, username, now), TokenType)
    ensures r.db.games == db.games && r.db.reviews == db.reviews
  {
    if username in db.users || userId in UserIds(db.users) then
      Reply(db, Err(UsernameExists))
    else
      var row := UserRow(userId, HashPassword(c, password), createdAt);
      Reply(db.(users := db.users[username := row]), Ok(Token(CreateAccessToken(c, username, now), TokenType)))
  }

  /** A successful registration adds exactly one user. */
  lemma RegisterAddsOneUser(db: Db, c: Crypto, username: string, password: string, userId: string, createdAt: string, now: int)
    requires Register(db, c, username, password, userId, createdAt, now).result.Ok?
    ensures |Register(db, c, username, password, userId, createdAt, now).db.users| == |db.users| + 1
  {
  }

  /** Registration keeps the table constraints. */
  lemma RegisterKeepsWellFormed(db: Db, c: Crypto, username: string, password: string, userId: string, createdAt: string, now: int)
    requires WellFormed(db)
    ensures WellFormed(Register(db, c, username, password, userId, createdAt, now).db)
  {
  }

  /** `login`. The credentials arrive as a password-request form, whose parsing treats an
      empty field as missing and refuses the request with 422 before the handler runs. Then a
      token for the username is returned exactly when the user exists and the password verifies
      against the stored hash, with one error for both failures. Nothing is stored. */
  function Login(db: Db, c: Crypto, username: string, password: string, now: int): (r: Result<Token, HttpError>)
    ensures username == "" || password == "" ==> r == Err(MissingCredentials)
    ensures r.Ok? <==>
              username != "" && password != "" &&
              username in db.users && VerifyPassword(c, password, db.users[username].password)
    ensures r.Ok? ==> r.value == Token(CreateAccessToken(c, username, now), TokenType)
    ensures r.Err? && username != "" && password != "" ==> r.error == BadLogin
  {
    if username == "" || password == "" then
      Err(MissingCredentials)
    else if username !in db.users || !VerifyPassword(c, password, db.users[username].password) then
      Err(BadLogin)
    else
      Ok(Token(CreateAccessToken(c, username, now), TokenType))
  }

  /** Registering then logging in with the same non-empty credentials succeeds. (Register
      accepts empty ones, which the login form then refuses.) */
  lemma RegisterThenLogin(db: Db, c: Crypto, username: string, password: string, userId: string, createdAt: string, now: int, later: int)
    requires Register(db, c, username, password, userId, createdAt, now).result.Ok?
    requires username != "" && password != ""
    ensures Login(Register(db, c, username, password, userId, createdAt, now).db, c, username, password, later).Ok?
  {
  }

  /** A second registration of a username always fails and stores nothing. */
  lemma UsernamesUnique(db: Db, c: Crypto, username: string, p1: string, p2: string, id1: string, id2: string, t1: string, t2: string, n1: int, n2: int)
    requires Register(db, c, username, p1, id1, t1, n1).result.Ok?
    ensures var db1 := Register(db, c, username, p1, id1, t1, n1).db;
            Register(db1, c, username, p2, id2, t2, n2) == Reply(db1, Err(UsernameExists))
  {
  }

  /** When the codec reads back what it signed, every token that register or login hands out
      authenticates as the user it was issued to. */
  lemma IssuedTokenIdentifiesUser(c: Crypto, username: string, now: int)
    requires forall claims :: c.decode(c.encode(claims)) == Some(claims)
    ensures GetCurrentUser(c, CreateAccessToken(c, username, now)) == Ok(username)
  {
  }

  /** With such a codec, the token from a successful login names the user who logged in. */
  lemma LoginTokenIdentifiesUser(db: Db, c: Crypto, username: string, password: string, now: int)
    requires forall claims :: c.decode(c.encode(claims)) == Some(claims)
    requires Login(db, c, username, password, now).Ok?
    ensures GetCurrentUser(c, Login(db, c, username, password, now).value.accessToken) == Ok(username)
  {
  }

  /** After `erase_all` nobody can log in. */
  lemma NoLoginAfterErase(db: Db, c: Crypto, username: string, password: string, now: int)
    ensures Login(EraseAll(db).db, c, username, password, now).Err?
    ensures username != "" && password != "" ==> Login(EraseAll(db).db, c, username, password, now) == Err(BadLogin)
  {
  }
}
