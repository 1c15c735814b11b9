/**
 * GoogleAuthenticationService.authenticate: verify a Google id token,
 * find the user with that Google id or create one, then issue a token
 * pair. Google's verifier enters as the function `verifyIdToken` (None:
 * it threw, or the ticket has no payload), the clock as `now`, and
 * `randomUUID()` as `refreshTokenId`.
 */
module GoogleAuthentication {
  import opened Outcomes
  import opened Jwt
  import opened Users
  import opened Authentication
  import Store = RefreshTokenIds

  /** The fields of the verified ticket's payload that are read. */
  datatype GooglePayload = GooglePayload(email: string, sub: string)

  /** Postgres' unique-violation code, the one the catch block tests for. */
  const PG_UNIQUE_VIOLATION: string := "23505"

  /**
   * The catch block: an error whose code is '23505' becomes Conflict,
   * anything else, including a rejected id token, Unauthorized.
   */
  function ErrorToHttp(e: Option<DbError>): (h: HttpError)
    ensures h == Conflict <==> e == Some(KnownRequestError(PG_UNIQUE_VIOLATION))
    ensures h == Conflict || h == Unauthorized(None)
  {
    if e.Some? && e.value.KnownRequestError? && e.value.code == PG_UNIQUE_VIOLATION
    then Conflict
    else Unauthorized(None)
  }

  /**
   * The user table reports a unique violation with Prisma's P2002, not
   * Postgres' 23505, so a creation that collides with an existing email
   * ends in Unauthorized rather than Conflict.
   */
  lemma PrismaUniqueViolationIsUnauthorized()
    ensures ErrorToHttp(Some(KnownRequestError(UNIQUE_CONSTRAINT_VIOLATION))) == Unauthorized(None)
  {
  }

  class GoogleAuthenticationService {
    const authService: AuthenticationService
    const prisma: UserTable

    ghost predicate Valid()
      reads this, authService, prisma
    {
      prisma == authService.users && prisma.Valid()
    }

    constructor (authService: AuthenticationService)
      ensures this.authService == authService && prisma == authService.users
    {
      this.authService := authService;
      this.prisma := authService.users;
    }

    method Authenticate(token: string, verifyIdToken: string -> Option<GooglePayload>, now: string, refreshTokenId: string)
      returns (r: Result<TokenPair, HttpError>)
      requires Valid()
      modifies prisma, authService.storage
      ensures Valid()
      // a rejected id token: nothing is read, created or updated
      ensures verifyIdToken(token).None? ==>
                && r == Err(Unauthorized(None))
                && prisma.rows == old(prisma.rows) && prisma.nextId == old(prisma.nextId)
                && authService.storage.entries == old(authService.storage.entries)
      // a known Google id: that user's login count goes up by one, nobody is created
      ensures verifyIdToken(token).Some? ==>
                forall id :: id in old(prisma.rows) && old(prisma.rows)[id].googleId == Some(verifyIdToken(token).value.sub) ==>
                  var user := old(prisma.rows)[id];
                  && r.Ok?
                  && prisma.rows == old(prisma.rows)[id := user.(loginsCount := user.loginsCount + 1, lastLogin := Some(now))]
                  && prisma.nextId == old(prisma.nextId)
                  && authService.storage.entries == Store.Inserted(old(authService.storage.entries), id, refreshTokenId)
                  && r.value.refreshToken.claims == Claims(id, None, Some(refreshTokenId))
                  && authService.Accepts(r.value.refreshToken, false)
                  && Verify(authService.config, r.value.accessToken, false) == Some(Claims(id, Some(user.email), None))
      // an unknown Google id: exactly one user is created from the ticket, unless its email is taken
      ensures verifyIdToken(token).Some? && !old(prisma.GoogleIdTaken(verifyIdToken(token).value.sub)) ==>
                var payload := verifyIdToken(token).value;
                if old(prisma.EmailTaken(payload.email)) then
                  && r == Err(Unauthorized(None))
                  && prisma.rows == old(prisma.rows) && prisma.nextId == old(prisma.nextId)
                  && authService.storage.entries == old(authService.storage.entries)
                else
                  var id := old(prisma.nextId);
                  && r.Ok?
                  && prisma.rows == old(prisma.rows)[id := User(id, payload.email, None, Some(payload.sub), LOGINS_COUNT_DEFAULT, Some(now))]
                  && prisma.nextId == id + 1
                  && authService.storage.entries == Store.Inserted(old(authService.storage.entries), id, refreshTokenId)
                  && r.value.refreshToken.claims == Claims(id, None, Some(refreshTokenId))
                  && authService.Accepts(r.value.refreshToken, false)
                  && Verify(authService.config, r.value.accessToken, false) == Some(Claims(id, Some(payload.email), None))
    {
      var loginTicket := verifyIdToken(token);
      if loginTicket.None? {
        return Err(ErrorToHttp(None));
      }
      var email, googleId := loginTicket.value.email, loginTicket.value.sub;
      var user := prisma.FindFirstByGoogleId(googleId);
      if user.Some? {
        var updated := prisma.UpdateLogin(user.value.id, user.value.loginsCount + 1, Some(now));
        // the row was just read, so the update finds it
        var pair := authService.GenerateTokens(user.value, refreshTokenId);
        return Ok(pair);
      }
      var newUser := prisma.Create(email, None, Some(googleId), Some(now));
      if newUser.Err? {
        return Err(ErrorToHttp(Some(newUser.error)));
      }
      var pair := authService.GenerateTokens(newUser.value, refreshTokenId);
      return Ok(pair);
    }
  }

  /**
   * Two sign-ins with the same Google id resolve to the same user: the
   * second finds the user the first found or created, and no second user
   * is created.
   */
  method RepeatedSignInReusesUser(svc: GoogleAuthenticationService, token: string,
                                  verifyIdToken: string -> Option<GooglePayload>, now: string, id1: string, id2: string)
    returns (first: Result<TokenPair, HttpError>, second: Result<TokenPair, HttpError>)
    requires svc.Valid()
    modifies svc.prisma, svc.authService.storage
    ensures first.Ok? ==> && second.Ok?
                          && second.value.refreshToken.claims.sub == first.value.refreshToken.claims.sub
                          && svc.prisma.nextId <= old(svc.prisma.nextId) + 1
  {
    first := svc.Authenticate(token, verifyIdToken, now, id1);
    if first.Ok? {
      var payload := verifyIdToken(token).value;
      var sub := first.value.refreshToken.claims.sub;
      assert sub in svc.prisma.rows && svc.prisma.rows[sub].googleId == Some(payload.sub);
    }
    second := svc.Authenticate(token, verifyIdToken, now, id2);
  }
}
