/** The desktop backend's account rules: registration checks and insert,
    login by user name or e-mail among active accounts, and the
    Authorization header check in front of protected endpoints. The users
    table is a sequence of rows; password hashing and checking, and the
    signing and decoding of tokens, are inputs. */
module Auth {
  import opened Common

  /** A row of the users table. `lastLogin` is the time of the last login,
      if any. */
  datatype User = User(id: nat, username: string, email: string, passwordHash: string,
                       active: bool, lastLogin: Option<nat>)

  /** The user object returned to the client. */
  datatype UserInfo = UserInfo(id: nat, username: string, email: string)

  /** The claims signed into a token (expiry and issue time are not
      modelled). */
  datatype Token = Token(userId: nat, username: string)

  /** The result of a registration or a login. */
  datatype Outcome = Success(token: Token, user: UserInfo) | Failure(error: string)

  const AllFieldsRequired: string := "All fields are required"
  const UsernameTooShort: string := "Username must be at least 3 characters"
  const PasswordTooShort: string := "Password must be at least 6 characters"
  const AlreadyExists: string := "Username or email already exists"
  const BadCredentials: string := "Invalid username/email or password"
  const TokenMissing: string := "Token is missing"
  const BadTokenFormat: string := "Invalid token format"
  const TokenInvalid: string := "Token is invalid or expired"

  /** Python truthiness of an optional string. */
  predicate Given(s: Option<string>)
  {
    s.Some? && s.value != []
  }

  /** The input checks of `register_user`, in their order: a missing field
      is reported before any length rule, and a short user name before a
      short password. */
  function Validate(username: Option<string>, email: Option<string>, password: Option<string>): (err: Option<string>)
    ensures err.None? <==> Given(username) && Given(email) && Given(password)
                           && |username.value| >= 3 && |password.value| >= 6
    ensures !Given(username) || !Given(email) || !Given(password) ==> err == Some(AllFieldsRequired)
    ensures Given(username) && Given(email) && Given(password) && |username.value| < 3 ==>
      err == Some(UsernameTooShort)
    ensures Given(username) && Given(email) && Given(password) && |username.value| >= 3 && |password.value| < 6 ==>
      err == Some(PasswordTooShort)
  {
    if !Given(username) || !Given(email) || !Given(password) then Some(AllFieldsRequired)
    else if |username.value| < 3 then Some(UsernameTooShort)
    else if |password.value| < 6 then Some(PasswordTooShort)
    else None
  }

  /** Some row has this user name or this e-mail (active or not). */
  predicate Taken(rows: seq<User>, username: string, email: string)
  {
    exists i :: 0 <= i < |rows| && (rows[i].username == username || rows[i].email == email)
  }

  /** Row `i` is one that the login query selects for `identifier`. */
  predicate LoginMatch(u: User, identifier: string)
  {
    (u.username == identifier || u.email == identifier) && u.active
  }

  /** A row the login query may return for `identifier`: the query has no
      ORDER BY, so `fetchone` gives some matching row, or none exactly when
      no row matches. */
  predicate Fetched(rows: seq<User>, identifier: string, found: Option<nat>)
  {
    && (found.None? <==> forall i :: 0 <= i < |rows| ==> !LoginMatch(rows[i], identifier))
    && (found.Some? ==> found.value < |rows| && LoginMatch(rows[found.value], identifier))
  }

  /** The first matching row in table order, one answer the query may give. */
  function FindActive(rows: seq<User>, identifier: string): (r: Option<nat>)
    ensures Fetched(rows, identifier, r)
    ensures r.Some? ==> forall i :: 0 <= i < r.value ==> !LoginMatch(rows[i], identifier)
  {
    if rows == [] then None
    else if LoginMatch(rows[0], identifier) then Some(0)
    else
      var rest := FindActive(rows[1..], identifier);
      assert forall i :: 1 <= i < |rows| ==> rows[i] == rows[1..][i - 1];
      if rest.None? then None else Some(rest.value + 1)
  }

  /** With unique user names and e-mails, two different rows that the login
      query may return match the identifier in different ways: one by user
      name, the other by e-mail. So at most two rows can match. */
  lemma TwoMatchesDiffer(rows: seq<User>, identifier: string, i: nat, j: nat)
    requires i < j < |rows| && rows[i].username != rows[j].username && rows[i].email != rows[j].email
    requires LoginMatch(rows[i], identifier) && LoginMatch(rows[j], identifier)
    ensures (rows[i].username == identifier && rows[j].email == identifier)
         || (rows[i].email == identifier && rows[j].username == identifier)
  {
  }

  /** `get_user_from_token` after decoding: the active row with the token's
      user id. */
  function UserById(rows: seq<User>, userId: nat): (r: Option<UserInfo>)
    ensures r.Some? <==> exists i :: 0 <= i < |rows| && rows[i].id == userId && rows[i].active
    ensures r.Some? ==>
      exists i :: 0 <= i < |rows| && rows[i].id == userId && rows[i].active &&
        r.value == UserInfo(rows[i].id, rows[i].username, rows[i].email)
  {
    if rows == [] then None
    else if rows[0].id == userId && rows[0].active then Some(UserInfo(rows[0].id, rows[0].username, rows[0].email))
    else
      assert forall i :: 1 <= i < |rows| ==> rows[i] == rows[1..][i - 1];
      UserById(rows[1..], userId)
  }

  /** The token of an Authorization header: the second space-separated
      word, whatever the first; no header gives no token. */
  function HeaderToken(header: Option<string>): Result<string, string>
  {
    if header.None? then Ok([])
    else
      var parts := Split(header.value, ' ');
      if |parts| < 2 then Err(BadTokenFormat) else Ok(parts[1])
  }

  /** `token_required`: the user the header's token names, or the 401
      message. `decode` is the token verification, giving the user id of a
      valid, unexpired token. */
  function Authorize(header: Option<string>, decode: string -> Option<nat>, rows: seq<User>): (r: Result<UserInfo, string>)
    ensures header.None? ==> r == Err(TokenMissing)
    ensures r.Err? ==> r.error == BadTokenFormat || r.error == TokenMissing || r.error == TokenInvalid
    ensures r.Ok? <==>
      var t := HeaderToken(header);
      && t.Ok? && t.value != [] && decode(t.value).Some?
      && exists i :: 0 <= i < |rows| && rows[i].id == decode(t.value).value && rows[i].active
    ensures r.Ok? ==>
      exists i :: 0 <= i < |rows| && rows[i].active &&
        r.value == UserInfo(rows[i].id, rows[i].username, rows[i].email)
    ensures r.Ok? ==> r.value.id == decode(HeaderToken(header).value).value
    ensures HeaderToken(header).Err? <==> r == Err(BadTokenFormat)
    ensures HeaderToken(header).Ok? && HeaderToken(header).value == [] <==> r == Err(TokenMissing)
    ensures HeaderToken(header).Ok? && HeaderToken(header).value != [] && r.Err? ==> r == Err(TokenInvalid)
  {
    var t := HeaderToken(header);
    if t.Err? then Err(t.error)
    else if t.value == [] then Err(TokenMissing)
    else
      var claims := decode(t.value);
      if claims.None? then Err(TokenInvalid)
      else
        var u := UserById(rows, claims.value);
        if u.None? then Err(TokenInvalid) else Ok(u.value)
  }

  /** The header rules: no header or an empty token is "missing", a header
      without a space is malformed, and any first word is accepted before
      the token, so the scheme is never checked. */
  lemma HeaderForms(scheme: string, token: string)
    requires ' ' !in scheme && ' ' !in token
    ensures HeaderToken(None) == Ok([])
    ensures HeaderToken(Some(scheme)) == Err(BadTokenFormat)
    ensures HeaderToken(Some(scheme + " " + token)) == Ok(token)
  {
    SplitJoin([scheme, token], ' ');
    assert Join([scheme, token], " ") == scheme + " " + token;
  }

  /** Two spaces after the scheme leave an empty second word: the token is
      reported missing. */
  lemma DoubleSpaceMissing(scheme: string, token: string, decode: string -> Option<nat>, rows: seq<User>)
    requires ' ' !in scheme && ' ' !in token
    ensures Authorize(Some(scheme + "  " + token), decode, rows) == Err(TokenMissing)
  {
    var parts := [scheme, "", token];
    SplitJoin(parts, ' ');
    assert parts[1..] == ["", token];
    assert Join(["", token], " ") == " " + token;
    assert Join(parts, " ") == scheme + " " + (" " + token);
    assert scheme + " " + (" " + token) == scheme + "  " + token;
  }

  /** The users table, with SQLite's record of the last id handed out. */
  class Users {
    var rows: seq<User>
    var lastId: nat

    /** Ids are positive, below the counter and distinct; user names and
        e-mails are unique (the table's UNIQUE constraints). */
    ghost predicate Valid()
      reads this
    {
      && (forall i :: 0 <= i < |rows| ==> 1 <= rows[i].id <= lastId)
      && (forall i, j :: 0 <= i < j < |rows| ==>
            rows[i].id != rows[j].id && rows[i].username != rows[j].username && rows[i].email != rows[j].email)
    }

    constructor ()
      ensures Valid() && rows == [] && lastId == 0
    {
      rows := [];
      lastId := 0;
    }

    /** `register_user`: `hash` is the bcrypt hash of the password. A failed
        check or an existing user name or e-mail changes nothing; otherwise
        one active row is added under a new id, and the token and user are
        returned for it. */
    method Register(username: Option<string>, email: Option<string>, password: Option<string>, hash: string)
      returns (r: Outcome)
      requires Valid()
      modifies this
      ensures Valid()
      ensures Validate(username, email, password).Some? ==>
        r == Failure(Validate(username, email, password).value) && rows == old(rows) && lastId == old(lastId)
      ensures Validate(username, email, password).None? && Taken(old(rows), username.value, email.value) ==>
        r == Failure(AlreadyExists) && rows == old(rows) && lastId == old(lastId)
      ensures Validate(username, email, password).None? && !Taken(old(rows), username.value, email.value) ==>
        && lastId == old(lastId) + 1
        && rows == old(rows) + [User(lastId, username.value, email.value, hash, true, None)]
        && r == Success(Token(lastId, username.value), UserInfo(lastId, username.value, email.value))
    {
      var err := Validate(username, email, password);
      if err.Some? {
        return Failure(err.value);
      }
      if exists i :: 0 <= i < |rows| && (rows[i].username == username.value || rows[i].email == email.value) {
        return Failure(AlreadyExists);
      }
      var id := lastId + 1;
      var row := User(id, username.value, email.value, hash, true, None);
      rows := rows + [row];
      lastId := id;
      return Success(Token(id, username.value), UserInfo(id, username.value, email.value));
    }

    /** `login_user`: `found` is the row the login query returned and
      `check` the bcrypt password check. An unknown or inactive identifier
      and a wrong password give the same error and change nothing; otherwise
      the returned row's last login becomes `now`. */
    method Login(identifier: string, password: string, found: Option<nat>, check: (string, string) -> bool, now: nat)
      returns (r: Outcome)
      requires Valid() && Fetched(rows, identifier, found)
      modifies this
      ensures Valid() && lastId == old(lastId)
      ensures found.None? ==> r == Failure(BadCredentials) && rows == old(rows)
      ensures found.Some? && !check(password, old(rows)[found.value].passwordHash) ==>
        r == Failure(BadCredentials) && rows == old(rows)
      ensures found.Some? && check(password, old(rows)[found.value].passwordHash) ==>
        var u := old(rows)[found.value];
        && rows == old(rows)[found.value := u.(lastLogin := Some(now))]
        && r == Success(Token(u.id, u.username), UserInfo(u.id, u.username, u.email))
      ensures r.Success? ==>
        exists i :: 0 <= i < |old(rows)| && LoginMatch(old(rows)[i], identifier)
          && r.user == UserInfo(old(rows)[i].id, old(rows)[i].username, old(rows)[i].email)
    {
      if found.None? {
        return Failure(BadCredentials);
      }
      var u := rows[found.value];
      if !check(password, u.passwordHash) {
        return Failure(BadCredentials);
      }
      rows := rows[found.value := u.(lastLogin := Some(now))];
      return Success(Token(u.id, u.username), UserInfo(u.id, u.username, u.email));
    }
  }

  /** Right after a registration, logging in by the new user name can only
      return the new account, unless an older account has that name as its
      e-mail. */
  lemma LoginAfterRegister(rows: seq<User>, row: User, found: Option<nat>)
    requires !Taken(rows, row.username, row.email) && row.active
    requires forall i :: 0 <= i < |rows| ==> rows[i].email != row.username
    requires Fetched(rows + [row], row.username, found)
    ensures found == Some(|rows|)
  {
    var rs := rows + [row];
    forall i | 0 <= i < |rows|
      ensures !LoginMatch(rs[i], row.username)
    {
      assert rs[i] == rows[i];
      assert rows[i].username != row.username;
    }
    assert LoginMatch(rs[|rows|], row.username);
  }

  /** When an older active account's e-mail is the new user name, the login
      query may return either account: the older one by e-mail or the new one
      by user name. Which one logs in is not decided by the query. */
  lemma LoginAmbiguous(rows: seq<User>, row: User, k: nat)
    requires k < |rows| && rows[k].email == row.username && rows[k].active && row.active
    requires forall i :: 0 <= i < |rows| && i != k ==> !LoginMatch(rows[i], row.username)
    ensures Fetched(rows + [row], row.username, Some(k))
    ensures Fetched(rows + [row], row.username, Some(|rows|))
    ensures forall found: Option<nat> :: Fetched(rows + [row], row.username, found) ==> found == Some(k) || found == Some(|rows| as nat)
  {
    var rs := rows + [row];
    assert rs[k] == rows[k];
    assert rs[|rows|] == row;
    forall found: Option<nat> | Fetched(rs, row.username, found)
      ensures found == Some(k) || found == Some(|rows| as nat)
    {
      if found.Some? && found.value < |rows| {
        assert rs[found.value] == rows[found.value];
      }
    }
  }
}
