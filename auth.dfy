/** Accounts and sessions (auth.service.js): self-registration with its role
    clamp, login with its order of refusals, refresh-token rotation and
    logout. Password hashing, the hash comparison and token signing are not
    modelled: the hash, the comparison and the signed tokens are parameters,
    and the clock is a number of milliseconds. */
module Auth {

  import opened Common
  import Store

  /** A stored user. `register` sets no tenant. */
  datatype User = User(
    id: Id, email: string, password: string, name: string, role: Role,
    isApproved: bool, tenantId: Option<Id>)

  /** The fields `register` selects for its answer (the password is not among them). */
  datatype Account = Account(id: Id, email: string, name: string, role: Role, isApproved: bool)

  /** A stored refresh token; the token string is unique in the table. */
  datatype RefreshToken = RefreshToken(id: Id, token: string, userId: Id, expiresAt: int)

  /** The answer of `login`. */
  datatype Session = Session(accessToken: string, refreshToken: string, userId: Id, email: string, name: string, role: Role)

  /** The answer of `refreshTokens`. */
  datatype TokenPair = TokenPair(accessToken: string, refreshToken: string)

  const EmailInUse := HttpError(409, "Email already in use")
  const InvalidCredentials := HttpError(401, "Invalid credentials")
  const PendingApproval := HttpError(403, "Account pending approval")
  const TokenRequired := HttpError(401, "Refresh token required")
  const InvalidToken := HttpError(401, "Invalid refresh token")
  const TokenExpired := HttpError(401, "Refresh token expired or not found")

  /** Seven days in milliseconds: the lifetime of a stored refresh token. */
  const TokenLifetime := 7 * 24 * 60 * 60 * 1000

  /** Only STUDENT and INSTRUCTOR may be chosen at registration; anything
      else, ADMIN and a missing role included, becomes STUDENT. */
  function ClampRole(role: Option<string>): (r: Role)
    ensures r != Admin
    ensures r == Instructor <==> role == Some(RoleName(Instructor))
  {
    if role == Some(RoleName(Instructor)) then Instructor else Student
  }

  function WithEmail(email: string): User -> bool
  {
    (u: User) => u.email == email
  }

  function WithToken(token: string): RefreshToken -> bool
  {
    (t: RefreshToken) => t.token == token
  }

  function WithoutToken(token: string): RefreshToken -> bool
  {
    (t: RefreshToken) => t.token != token
  }

  /** Logging out twice is logging out once. */
  lemma LogoutIdempotent(tokens: seq<RefreshToken>, token: string)
    ensures Store.Filter(Store.Filter(tokens, WithoutToken(token)), WithoutToken(token))
            == Store.Filter(tokens, WithoutToken(token))
  {
    Store.FilterIdempotent(tokens, WithoutToken(token));
  }

  class AuthStore {
    var users: seq<User>
    var tokens: seq<RefreshToken>
    var nextId: nat

    /** E-mail addresses and token strings are unique; ids are below the counter. */
    ghost predicate Valid()
      reads this
    {
      && (forall u, v :: u in users && v in users && u.email == v.email ==> u == v)
      && (forall u :: u in users ==> u.id < nextId)
      && (forall t, s :: t in tokens && s in tokens && t.token == s.token ==> t == s)
      && (forall t :: t in tokens ==> t.id < nextId)
    }

    constructor ()
      ensures Valid() && users == [] && tokens == []
    {
      users := [];
      tokens := [];
      nextId := 0;
    }

    /** `register`: 409 when the e-mail is taken (by any user), otherwise one
        new user with the clamped role, approved exactly when a student. */
    method Register(email: string, name: string, role: Option<string>, hashed: string)
      returns (r: Result<Account>)
      requires Valid()
      modifies this
      ensures Valid() && tokens == old(tokens)
      ensures r.Err? <==> exists u :: u in old(users) && u.email == email
      ensures r.Err? ==> r.error == EmailInUse && users == old(users)
      ensures r.Ok? ==> users == old(users) + [User(r.value.id, email, hashed, name, r.value.role, r.value.isApproved, None)]
      ensures r.Ok? ==> r.value.id == old(nextId) && r.value.email == email && r.value.name == name
      ensures r.Ok? ==> r.value.role == ClampRole(role) && (r.value.isApproved <==> r.value.role == Student)
    {
      var userRole := ClampRole(role);
      var existing := Store.FindFirst(users, WithEmail(email));
      if existing.Some? {
        assert WithEmail(email)(users[existing.value]);
        return Err(EmailInUse);
      }
      forall u | u in users ensures u.email != email {
        var k :| 0 <= k < |users| && users[k] == u;
        assert !WithEmail(email)(users[k]);
      }
      var user := User(nextId, email, hashed, name, userRole, userRole == Student, None);
      users := users + [user];
      nextId := nextId + 1;
      r := Ok(Account(user.id, email, name, userRole, user.isApproved));
    }

    /** `login`: 401 for an unknown e-mail, then 401 for a wrong password,
        then 403 for an unapproved account; otherwise one refresh token for
        the user is stored, expiring seven days later. A signed token equal to
        one already stored is refused by the store's unique constraint. */
    method Login(email: string, password: string, matches: (string, string) -> bool,
                 accessToken: string, refreshToken: string, now: int)
      returns (r: Result<Session>)
      requires Valid()
      modifies this
      ensures Valid() && users == old(users)
      ensures r.Err? ==> tokens == old(tokens)
      ensures (forall u :: u in users ==> u.email != email) ==> r == Err(InvalidCredentials)
      ensures forall u :: u in users && u.email == email ==>
        if !matches(password, u.password) then r == Err(InvalidCredentials)
        else if !u.isApproved then r == Err(PendingApproval)
        else if exists t :: t in old(tokens) && t.token == refreshToken then r == Err(UniqueViolation)
        else
          && r == Ok(Session(accessToken, refreshToken, u.id, u.email, u.name, u.role))
          && tokens == old(tokens) + [RefreshToken(old(nextId), refreshToken, u.id, now + TokenLifetime)]
    {
      var found := Store.FindFirst(users, WithEmail(email));
      if found.None? {
        forall u | u in users ensures u.email != email {
          var k :| 0 <= k < |users| && users[k] == u;
          assert !WithEmail(email)(users[k]);
        }
        return Err(InvalidCredentials);
      }
      var user := users[found.value];
      assert WithEmail(email)(user);
      if !matches(password, user.password) {
        return Err(InvalidCredentials);
      }
      if !user.isApproved {
        return Err(PendingApproval);
      }
      var clash := Store.FindFirst(tokens, WithToken(refreshToken));
      if clash.Some? {
        assert WithToken(refreshToken)(tokens[clash.value]);
        return Err(UniqueViolation);
      }
      forall t | t in tokens ensures t.token != refreshToken {
        var k :| 0 <= k < |tokens| && tokens[k] == t;
        assert !WithToken(refreshToken)(tokens[k]);
      }
      tokens := tokens + [RefreshToken(nextId, refreshToken, user.id, now + TokenLifetime)];
      nextId := nextId + 1;
      r := Ok(Session(accessToken, refreshToken, user.id, user.email, user.name, user.role));
    }

    /** `refreshTokens`: 401 for a missing token, then for one whose signature
        does not verify, then for one not stored or expired, all leaving the
        store as it was; otherwise the presented token is replaced by a new
        one for the same user. */
    method RefreshTokens(refreshToken: Option<string>, verifies: string -> bool,
                         accessToken: string, newRefreshToken: string, now: int)
      returns (r: Result<TokenPair>)
      requires Valid()
      modifies this
      ensures Valid() && users == old(users)
      ensures !Truthy(refreshToken) ==> r == Err(TokenRequired) && tokens == old(tokens)
      ensures Truthy(refreshToken) && !verifies(refreshToken.value) ==> r == Err(InvalidToken) && tokens == old(tokens)
      ensures Truthy(refreshToken) && verifies(refreshToken.value) ==>
        if forall t :: t in old(tokens) && t.token == refreshToken.value ==> t.expiresAt < now then
          r == Err(TokenExpired) && tokens == old(tokens)
        else exists t :: (t in old(tokens) && t.token == refreshToken.value && t.expiresAt >= now
          && var kept := Store.Filter(old(tokens), WithoutToken(refreshToken.value));
          if exists s :: s in kept && s.token == newRefreshToken then
            r == Err(UniqueViolation) && tokens == kept
          else
            && r == Ok(TokenPair(accessToken, newRefreshToken))
            && tokens == kept + [RefreshToken(old(nextId), newRefreshToken, t.userId, now + TokenLifetime)])
    {
      if !Truthy(refreshToken) {
        return Err(TokenRequired);
      }
      var presented := refreshToken.value;
      if !verifies(presented) {
        return Err(InvalidToken);
      }
      var found := Store.FindFirst(tokens, WithToken(presented));
      if found.None? || tokens[found.value].expiresAt < now {
        forall t | t in tokens && t.token == presented ensures t.expiresAt < now {
          var k :| 0 <= k < |tokens| && tokens[k] == t;
          assert WithToken(presented)(tokens[k]);
        }
        return Err(TokenExpired);
      }
      var stored := tokens[found.value];
      assert WithToken(presented)(stored);
      tokens := Store.Filter(tokens, WithoutToken(presented));
      var clash := Store.FindFirst(tokens, WithToken(newRefreshToken));
      if clash.Some? {
        assert WithToken(newRefreshToken)(tokens[clash.value]);
        return Err(UniqueViolation);
      }
      forall t | t in tokens ensures t.token != newRefreshToken {
        var k :| 0 <= k < |tokens| && tokens[k] == t;
        assert !WithToken(newRefreshToken)(tokens[k]);
      }
      tokens := tokens + [RefreshToken(nextId, newRefreshToken, stored.userId, now + TokenLifetime)];
      nextId := nextId + 1;
      r := Ok(TokenPair(accessToken, newRefreshToken));
    }

    /** `logout`: every stored entry of the token is removed; without a token
        nothing happens. */
    method Logout(refreshToken: Option<string>)
      requires Valid()
      modifies this
      ensures Valid() && users == old(users)
      ensures !Truthy(refreshToken) ==> tokens == old(tokens)
      ensures Truthy(refreshToken) ==> tokens == Store.Filter(old(tokens), WithoutToken(refreshToken.value))
      ensures Truthy(refreshToken) ==> forall t :: t in tokens <==> t in old(tokens) && t.token != refreshToken.value
    {
      if Truthy(refreshToken) {
        tokens := Store.Filter(tokens, WithoutToken(refreshToken.value));
      }
    }
  }
}
