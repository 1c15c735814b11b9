/**
 * AuthenticationService: password sign-in and sign-up, issuing a token
 * pair, and refresh-token rotation. The collaborators that are not
 * modelled enter as parameters: argon2 as `hash` and `compare`,
 * `randomUUID()` as the id `refreshTokenId` that a call is handed, and the
 * clock as the `expired` verdict on a presented token.
 */
module Authentication {
  import opened Outcomes
  import opened Jwt
  import opened Users
  import Store = RefreshTokenIds

  datatype TokenPair = TokenPair(accessToken: Token, refreshToken: Token)

  const INVALID_CREDENTIALS: string := "Invalid credentials"

  /**
   * signUp's catch block, from what `usersService.create` did. A known
   * Prisma error with code P2002 becomes Conflict and any other known
   * Prisma error is rethrown; any other error is swallowed, and signUp
   * returns undefined.
   */
  function SignUpOutcome(created: Result<User, DbError>): (r: Result<Option<User>, HttpError>)
    ensures created.Ok? ==> r == Ok(Some(created.value))
    ensures r == Err(Conflict) <==> created == Err(KnownRequestError(UNIQUE_CONSTRAINT_VIOLATION))
    ensures r == Ok(None) <==> created == Err(OtherError)
    ensures created.Err? && created.error.KnownRequestError? && created.error.code != UNIQUE_CONSTRAINT_VIOLATION
            ==> r == Err(Internal)
    ensures r.Err? ==> r.error == Conflict || r.error == Internal
  {
    match created
    case Ok(user) => Ok(Some(user))
    case Err(KnownRequestError(code)) =>
      if code == UNIQUE_CONSTRAINT_VIOLATION then Err(Conflict) else Err(Internal)
    case Err(OtherError) => Ok(None)
  }

  class AuthenticationService {
    const users: UserTable
    const storage: Store.RefreshTokenIdsStorage
    const config: JwtConfig

    ghost predicate Valid()
      reads this, users
    {
      users.Valid()
    }

    /** Whether refreshTokens accepts `token` now: it verifies, its user exists, and its id is the stored one. */
    ghost predicate Accepts(token: Token, expired: bool)
      reads this, users, storage
    {
      var claims := Verify(config, token, expired);
      && claims.Some?
      && claims.value.sub in users.rows
      && Store.Validates(storage.entries, claims.value.sub, claims.value.refreshTokenId)
    }

    constructor (users: UserTable, storage: Store.RefreshTokenIdsStorage, config: JwtConfig)
      ensures this.users == users && this.storage == storage && this.config == config
    {
      this.users := users;
      this.storage := storage;
      this.config := config;
    }

    /**
     * generateTokens: sign an access token `{sub, email}` and a refresh token
     * `{sub, refreshTokenId}`, then make `refreshTokenId` the user's stored id.
     */
    method GenerateTokens(user: User, refreshTokenId: string) returns (pair: TokenPair)
      modifies storage
      ensures storage.entries == Store.Inserted(old(storage.entries), user.id, refreshTokenId)
      ensures Store.Lookup(storage.entries, user.id) == Some(refreshTokenId)
      ensures forall v: nat :: v != user.id ==> Store.Lookup(storage.entries, v) == Store.Lookup(old(storage.entries), v)
      ensures Verify(config, pair.accessToken, false) == Some(Claims(user.id, Some(user.email), None))
      ensures Verify(config, pair.refreshToken, false) == Some(Claims(user.id, None, Some(refreshTokenId)))
      ensures pair.accessToken.expiresIn == config.accessTokenTtl
      ensures pair.refreshToken.expiresIn == config.refreshTokenTtl
    {
      var accessToken := SignToken(config, user.id, config.accessTokenTtl, AccessPayload(user.email));
      var refreshToken := SignToken(config, user.id, config.refreshTokenTtl, RefreshPayload(refreshTokenId));
      storage.Insert(user.id, refreshTokenId);
      forall v: nat | v != user.id
        ensures Store.Lookup(storage.entries, v) == Store.Lookup(old(storage.entries), v)
      {
        Store.OtherUsersUnaffected(old(storage.entries), user.id, v, refreshTokenId);
      }
      pair := TokenPair(accessToken, refreshToken);
    }

    /**
     * refreshTokens: verify the presented token, load its user, check its id
     * against the stored one, delete the entry and issue a new pair. Every
     * failure becomes Unauthorized, and since `validate` throws before
     * `invalidate` runs, a failure leaves the store as it was.
     */
    method RefreshTokens(token: Token, expired: bool, refreshTokenId: string) returns (r: Result<TokenPair, HttpError>)
      requires Valid()
      modifies storage
      ensures r.Ok? <==> old(Accepts(token, expired))
      ensures r.Err? ==> r.error == Unauthorized(None) && storage.entries == old(storage.entries)
      ensures r.Ok? ==> && storage.entries == Store.Inserted(old(storage.entries), token.claims.sub, refreshTokenId)
                        && r.value.refreshToken.claims == Claims(token.claims.sub, None, Some(refreshTokenId))
                        && token.claims.sub in users.rows
                        && Verify(config, r.value.accessToken, false)
                           == Some(Claims(token.claims.sub, Some(users.rows[token.claims.sub].email), None))
                        && Accepts(r.value.refreshToken, false)
    {
      var tokenPayload := Verify(config, token, expired);
      if tokenPayload.None? {
        return Err(Unauthorized(None));
      }
      var user := users.FindById(tokenPayload.value.sub);
      if user.None? {
        // `user.id` on null throws a TypeError, caught like any other error
        return Err(Unauthorized(None));
      }
      var valid := storage.Validate(user.value.id, tokenPayload.value.refreshTokenId);
      if valid.Err? {
        return Err(Unauthorized(None));
      }
      storage.Invalidate(user.value.id);
      var pair := GenerateTokens(user.value, refreshTokenId);
      return Ok(pair);
    }

    /**
     * signIn: look the user up by email and compare the password with its
     * digest. An unknown email and a wrong password throw the same
     * Unauthorized('Invalid credentials'). A user without a digest (a
     * Google-only account) makes argon2 reject, uncaught.
     */
    method SignIn(email: string, password: string, compare: (string, string) -> bool, refreshTokenId: string)
      returns (r: Result<TokenPair, HttpError>)
      requires Valid()
      modifies storage
      ensures !old(users.EmailTaken(email)) ==>
                r == Err(Unauthorized(Some(INVALID_CREDENTIALS))) && storage.entries == old(storage.entries)
      ensures forall id :: id in users.rows && users.rows[id].email == email ==>
                var user := users.rows[id];
                && (user.pwd.None? ==> r == Err(Internal) && storage.entries == old(storage.entries))
                && (user.pwd.Some? && !compare(password, user.pwd.value) ==>
                      r == Err(Unauthorized(Some(INVALID_CREDENTIALS))) && storage.entries == old(storage.entries))
                && (user.pwd.Some? && compare(password, user.pwd.value) ==>
                      && r.Ok?
                      && storage.entries == Store.Inserted(old(storage.entries), id, refreshTokenId)
                      && Accepts(r.value.refreshToken, false)
                      && Verify(config, r.value.accessToken, false) == Some(Claims(id, Some(email), None)))
    {
      var user := users.FindByEmail(email);
      if user.None? {
        return Err(Unauthorized(Some(INVALID_CREDENTIALS)));
      }
      if user.value.pwd.None? {
        return Err(Internal);
      }
      var isEqual := compare(password, user.value.pwd.value);
      if !isEqual {
        return Err(Unauthorized(Some(INVALID_CREDENTIALS)));
      }
      var pair := GenerateTokens(user.value, refreshTokenId);
      return Ok(pair);
    }

    /**
     * signUp: create the user with the hashed password and return it. It
     * issues no tokens and does not touch the refresh store.
     */
    method SignUp(email: string, password: string, hash: string -> string) returns (r: Result<Option<User>, HttpError>)
      requires Valid()
      modifies users
      ensures Valid()
      ensures r.Ok? <==> !old(users.EmailTaken(email))
      ensures r == Err(Conflict) <==> old(users.EmailTaken(email))
      ensures r.Err? ==> users.rows == old(users.rows)
      ensures r.Ok? ==> && r.value == Some(User(old(users.nextId), email, Some(hash(password)), None, LOGINS_COUNT_DEFAULT, None))
                        && users.rows == old(users.rows)[old(users.nextId) := r.value.value]
    {
      var created := users.Create(email, Some(hash(password)), None, None);
      r := SignUpOutcome(created);
    }
  }

  /**
   * Rotation is single-use: presenting an accepted refresh token succeeds,
   * the new pair's refresh token is itself accepted, and presenting the
   * same token again fails, provided the id drawn for the rotation differs
   * from the one it replaces.
   */
  method RotationRejectsReplay(svc: AuthenticationService, token: Token, firstId: string, secondId: string)
    returns (first: Result<TokenPair, HttpError>, second: Result<TokenPair, HttpError>)
    requires svc.Valid() && svc.Accepts(token, false)
    requires token.claims.refreshTokenId != Some(firstId)
    modifies svc.storage
    ensures first.Ok? && svc.Accepts(first.value.refreshToken, false)
    ensures second == Err(Unauthorized(None))
  {
    first := svc.RefreshTokens(token, false, firstId);
    Store.InsertOverwrites(old(svc.storage.entries), token.claims.sub, token.claims.refreshTokenId.value, firstId);
    second := svc.RefreshTokens(token, false, secondId);
  }

  /** A pair issued by a successful sign-in can be rotated straight away. */
  method SignedInPairRotates(svc: AuthenticationService, email: string, password: string,
                             compare: (string, string) -> bool, signInId: string, rotationId: string)
    returns (signedIn: Result<TokenPair, HttpError>, rotated: Result<TokenPair, HttpError>)
    requires svc.Valid()
    modifies svc.storage
    ensures signedIn.Ok? ==> rotated.Ok?
    ensures signedIn.Err? ==> svc.storage.entries == old(svc.storage.entries)
  {
    signedIn := svc.SignIn(email, password, compare, signInId);
    if signedIn.Ok? {
      rotated := svc.RefreshTokens(signedIn.value.refreshToken, false, rotationId);
    } else {
      rotated := Err(Unauthorized(None));
    }
  }
}
