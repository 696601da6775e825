/**
 * The registration handshake across the two services: what the
 * authentication service sends to `createUser` becomes a user in the user
 * service, and that user can then log in with the password it registered.
 */
module AccountFlow {
  import opened Wrappers
  import opened Authentication
  import Users

  /** The JSON hand-off from the authentication service's request to the user service's (phoneNumber becomes phone). */
  function ToUserRequest(req: RegisterRequest): Users.UserRegisterRequest {
    Users.UserRegisterRequest(req.username, req.email, req.fullName, req.phoneNumber, req.password)
  }

  /** What `/api/users/by-email` hands back to the authentication service. */
  function ToDirectoryUser(u: Users.User): DirectoryUser {
    DirectoryUser(u.id, u.username, u.email, u.passwordHash)
  }

  /**
   * A successful confirmation makes the user service store the BCrypt hash of
   * the registered password, and a later login with that password succeeds
   * and issues the token for the registered username, provided BCrypt matches
   * every password against its own hash.
   */
  lemma ConfirmedAccountCanLogIn(pending: PendingMap, email: string, otp: string, now: int,
                                 hash: string -> string, users: seq<Users.User>, nextId: int,
                                 matches: (string, string) -> bool, issue: string -> string)
    requires ConfirmStep(pending, email, otp, now, hash, true).outcome == Pass
    requires WellFormed(pending)
    requires Users.StoreInvariant(users, nextId) && !Users.ExistsByEmail(users, email)
    requires forall p :: matches(p, hash(p))
    ensures
      var req := pending[email].registerRequest;
      var sent := ConfirmStep(pending, email, otp, now, hash, true).createCall.value;
      var users' := users + [Users.NewUser(nextId, ToUserRequest(sent))];
      var stored := Users.FindByEmail(users', email);
      && stored.Some?
      && stored.value.passwordHash == hash(req.password)
      && AuthenticationService.Login(LoginRequest(email, req.password), Found(ToDirectoryUser(stored.value)),
                                     matches, issue)
         == Success(LoginResponse(issue(req.username), nextId, req.username, email))
  {
    var req := pending[email].registerRequest;
    var sent := ConfirmStep(pending, email, otp, now, hash, true).createCall.value;
    assert sent == Hashed(req, hash);
    Users.CreatedUserIsFoundByEmail(users, nextId, ToUserRequest(sent));
  }
}
