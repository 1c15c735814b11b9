/**
 * AccountsController.delete: delete the signed-in user's row, then that
 * user's refresh-token entry. Any error becomes BadRequest.
 */
module Accounts {
  import opened Outcomes
  import opened Jwt
  import opened Users
  import opened Authentication
  import Store = RefreshTokenIds

  class AccountsController {
    const tokenStorage: Store.RefreshTokenIdsStorage
    const usersService: UserTable

    constructor (tokenStorage: Store.RefreshTokenIdsStorage, usersService: UserTable)
      ensures this.tokenStorage == tokenStorage && this.usersService == usersService
    {
      this.tokenStorage := tokenStorage;
      this.usersService := usersService;
    }

    /** `userId` is the `sub` claim of the caller's access token. */
    method Delete(userId: nat) returns (r: Result<int, HttpError>)
      requires usersService.Valid()
      modifies usersService, tokenStorage
      ensures usersService.Valid()
      ensures r.Err? <==> userId !in old(usersService.rows)
      ensures r.Err? ==> && r.error == BadRequest(None)
                         && usersService.rows == old(usersService.rows)
                         && tokenStorage.entries == old(tokenStorage.entries)
      ensures r.Ok? ==> && r.value == OK
                        && usersService.rows == old(usersService.rows) - {userId}
                        && tokenStorage.entries == Store.Invalidated(old(tokenStorage.entries), userId)
      ensures forall v: nat :: v != userId ==> Store.Lookup(tokenStorage.entries, v) == Store.Lookup(old(tokenStorage.entries), v)
    {
      var deleted := usersService.Delete(userId);
      if deleted.Err? {
        return Err(BadRequest(None));
      }
      tokenStorage.Invalidate(userId);
      forall v: nat | v != userId
        ensures Store.Lookup(tokenStorage.entries, v) == Store.Lookup(old(tokenStorage.entries), v)
      {
        Store.OtherUsersUnaffected(old(tokenStorage.entries), userId, v, "");
      }
      return Ok(OK);
    }
  }

  /**
   * After a successful account deletion no refresh token of that user is
   * accepted any more, however valid its signature: the row and the
   * stored id are both gone.
   */
  method DeletedAccountCannotRefresh(accounts: AccountsController, auth: AuthenticationService,
                                     token: Token, expired: bool, newId: string)
    returns (deleted: Result<int, HttpError>, refreshed: Result<TokenPair, HttpError>)
    requires auth.users == accounts.usersService && auth.storage == accounts.tokenStorage
    requires auth.Valid()
    modifies accounts.usersService, accounts.tokenStorage
    ensures deleted.Ok? ==> refreshed == Err(Unauthorized(None))
  {
    var userId := token.claims.sub;
    deleted := accounts.Delete(userId);
    refreshed := auth.RefreshTokens(token, expired, newId);
  }
}
