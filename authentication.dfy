/**
 * The authentication service's registration coordinator: a map of pending
 * registrations keyed by email, each waiting for its one-time password (OTP),
 * plus login against the remote user directory.
 *
 * Collaborators the coordinator cannot see are inputs: the clock (`now`, in
 * whole seconds), the user directory's answer to a lookup (`Lookup`), whether
 * the directory accepted `createUser` (`createOk`), whether the OTP mail went
 * out (`mailSent`), the random draw behind the OTP (`draw`), and BCrypt and
 * JWT as function-valued parameters.
 */
module Authentication {
  import opened Wrappers
  import opened DecimalText

  /** Seconds a pending registration stays confirmable. */
  const OtpTtl: int := 300
  const OtpMin: nat := 100000
  const OtpMax: nat := 999999

  datatype RegisterRequest = RegisterRequest(
    username: string, email: string, fullName: string, phoneNumber: string, password: string)

  /** The directory's view of an account, as the authentication service receives it. */
  datatype DirectoryUser = DirectoryUser(id: int, username: string, email: string, passwordHash: string)

  /**
   * The four ways `getUserByEmail` can come back: a user; a successful reply
   * with no body (Feign decodes it to null); a 404, thrown as
   * `FeignException.NotFound`; or any other failure, including the fallback's
   * `RuntimeException` when the directory is down.
   */
  datatype Lookup = Found(user: DirectoryUser) | Empty | NotFound | Unavailable

  datatype PendingUser = PendingUser(registerRequest: RegisterRequest, otp: string, expiryTime: int)
  {
    /** `Instant.now().isAfter(expiryTime)`: strictly later than the expiry. */
    predicate IsExpired(now: int) {
      now > expiryTime
    }
  }

  datatype AuthError =
    | EmailExists
    | DirectoryUnavailable
    | OtpSendFailed
    | RegistrationNotFoundOrExpired
    | OtpIncorrect
    | CreateUserFailed
    | DirectoryNotFound
    | AccountNotFound
    | PasswordIncorrect

  datatype LoginRequest = LoginRequest(email: string, password: string)
  datatype LoginResponse = LoginResponse(token: string, id: int, username: string, email: string)

  type PendingMap = map<string, PendingUser>

  lemma OtpBounds()
    ensures Pow10(5) == OtpMin && Pow10(6) == OtpMax + 1
  {
    assert Pow10(1) == 10;
    assert Pow10(2) == 100;
    assert Pow10(3) == 1000;
    assert Pow10(4) == 10000;
  }

  /**
   * `generateOTP`: `(int) (Math.random() * 900000) + 100000` printed in
   * decimal, where `draw` is the truncated product, 0 <= draw < 900000.
   * The code is exactly six decimal digits and denotes a number in
   * 100000..999999; distinct draws give distinct codes.
   */
  function GenerateOtp(draw: nat): (otp: string)
    requires draw < 900000
    ensures |otp| == 6 && AllDigits(otp)
    ensures OtpMin <= Parse(otp) <= OtpMax && Parse(otp) - OtpMin == draw
  {
    OtpBounds();
    RenderLength(draw + OtpMin, 6);
    ParseRender(draw + OtpMin);
    Render(draw + OtpMin)
  }

  lemma OtpInjective(d1: nat, d2: nat)
    requires d1 < 900000 && d2 < 900000 && d1 != d2
    ensures GenerateOtp(d1) != GenerateOtp(d2)
  {
  }

  /** What `register` returns and leaves in the pending map. */
  datatype RegisterEffect = RegisterEffect(outcome: Outcome<AuthError>, pending: PendingMap)

  /**
   * `register`: the duplicate check lets only a directory 404 through; a
   * returned user (or an empty reply) means the email exists, and any other
   * failure propagates. Past the check the entry for the email is upserted
   * with a fresh OTP and a 300-second expiry, and only then is the mail sent.
   */
  function RegisterStep(pending: PendingMap, req: RegisterRequest, now: int, lookup: Lookup,
                        draw: nat, mailSent: bool): (r: RegisterEffect)
    requires draw < 900000
    ensures r.outcome == Pass <==> lookup.NotFound? && mailSent
    ensures (lookup.Found? || lookup.Empty?) ==> r.outcome == Fail(EmailExists)
    ensures lookup.Unavailable? ==> r.outcome == Fail(DirectoryUnavailable)
    ensures lookup.NotFound? && !mailSent ==> r.outcome == Fail(OtpSendFailed)
    ensures !lookup.NotFound? ==> r.pending == pending
    ensures lookup.NotFound? ==>
      && r.pending.Keys == pending.Keys + {req.email}
      && r.pending[req.email] == PendingUser(req, GenerateOtp(draw), now + OtpTtl)
      && forall e | e in pending && e != req.email :: r.pending[e] == pending[e]
  {
    match lookup
    case Found(_) => RegisterEffect(Fail(EmailExists), pending)
    case Empty => RegisterEffect(Fail(EmailExists), pending)
    case Unavailable => RegisterEffect(Fail(DirectoryUnavailable), pending)
    case NotFound =>
      var pending' := pending[req.email := PendingUser(req, GenerateOtp(draw), now + OtpTtl)];
      RegisterEffect(if mailSent then Pass else Fail(OtpSendFailed), pending')
  }

  /**
   * What `confirmRegistration` returns, leaves in the pending map, and sends
   * to the directory's `createUser` (`None` when it never gets that far).
   */
  datatype ConfirmEffect = ConfirmEffect(
    outcome: Outcome<AuthError>, pending: PendingMap, createCall: Option<RegisterRequest>)

  /** The stored request with its password replaced by the hash, as `req.setPassword` leaves it. */
  function Hashed(req: RegisterRequest, hash: string -> string): RegisterRequest {
    req.(password := hash(req.password))
  }

  /**
   * `confirmRegistration`: absence or expiry first, then the OTP. On a match
   * the stored request's password is overwritten by its hash in place, the
   * request goes to `createUser`, and only if that returns is the entry removed.
   */
  function ConfirmStep(pending: PendingMap, email: string, otp: string, now: int,
                       hash: string -> string, createOk: bool): (r: ConfirmEffect)
    ensures email !in pending || pending[email].IsExpired(now) ==>
      r == ConfirmEffect(Fail(RegistrationNotFoundOrExpired), pending, None)
    ensures email in pending && !pending[email].IsExpired(now) && pending[email].otp != otp ==>
      r == ConfirmEffect(Fail(OtpIncorrect), pending, None)
    ensures r.createCall.Some? <==>
      email in pending && !pending[email].IsExpired(now) && pending[email].otp == otp
    ensures r.createCall.Some? ==>
      r.createCall.value == Hashed(pending[email].registerRequest, hash)
    ensures r.outcome == Pass <==> r.createCall.Some? && createOk
    ensures r.outcome == Pass ==>
      r.pending.Keys == pending.Keys - {email} &&
      forall e | e in r.pending :: r.pending[e] == pending[e]
    ensures r.createCall.Some? && !createOk ==>
      && r.outcome == Fail(CreateUserFailed)
      && r.pending.Keys == pending.Keys
      && r.pending[email] == pending[email].(registerRequest := r.createCall.value)
      && forall e | e in pending && e != email :: r.pending[e] == pending[e]
  {
    if email !in pending || pending[email].IsExpired(now) then
      ConfirmEffect(Fail(RegistrationNotFoundOrExpired), pending, None)
    else if pending[email].otp != otp then
      ConfirmEffect(Fail(OtpIncorrect), pending, None)
    else
      var entry := pending[email];
      var req := Hashed(entry.registerRequest, hash);
      var pending' := pending[email := entry.(registerRequest := req)];
      if createOk then ConfirmEffect(Pass, pending' - {email}, Some(req))
      else ConfirmEffect(Fail(CreateUserFailed), pending', Some(req))
  }

  /**
   * What holds of every entry the coordinator stores: it is filed under its
   * own request's email, and its OTP is six decimal digits.
   */
  predicate WellFormed(pending: PendingMap) {
    forall e | e in pending ::
      pending[e].registerRequest.email == e && |pending[e].otp| == 6 && AllDigits(pending[e].otp)
  }

  /** `register` keeps every entry well formed, whatever the directory and the mailer do. */
  lemma RegisterKeepsWellFormed(pending: PendingMap, req: RegisterRequest, now: int, lookup: Lookup,
                                draw: nat, mailSent: bool)
    requires WellFormed(pending) && draw < 900000
    ensures WellFormed(RegisterStep(pending, req, now, lookup, draw, mailSent).pending)
  {
  }

  /** So does `confirmRegistration`, including when it leaves a hashed request behind. */
  lemma ConfirmKeepsWellFormed(pending: PendingMap, email: string, otp: string, now: int,
                               hash: string -> string, createOk: bool)
    requires WellFormed(pending)
    ensures WellFormed(ConfirmStep(pending, email, otp, now, hash, createOk).pending)
  {
  }

  /** The coordinator itself; `pendingUsers` is the map the Java class holds. */
  class AuthenticationService {
    var pendingUsers: PendingMap

    ghost predicate Valid()
      reads this
    {
      WellFormed(pendingUsers)
    }

    constructor ()
      ensures Valid() && pendingUsers == map[]
    {
      pendingUsers := map[];
    }

    method Register(req: RegisterRequest, now: int, lookup: Lookup, draw: nat, mailSent: bool)
      returns (r: Outcome<AuthError>)
      requires Valid() && draw < 900000
      modifies this
      ensures Valid()
      ensures RegisterEffect(r, pendingUsers) == RegisterStep(old(pendingUsers), req, now, lookup, draw, mailSent)
    {
      if !lookup.NotFound? {
        r := if lookup.Unavailable? then Fail(DirectoryUnavailable) else Fail(EmailExists);
        return;
      }
      var otp := GenerateOtp(draw);
      pendingUsers := pendingUsers[req.email := PendingUser(req, otp, now + OtpTtl)];
      if !mailSent {
        r := Fail(OtpSendFailed);
        return;
      }
      r := Pass;
    }

    method ConfirmRegistration(email: string, otp: string, now: int, hash: string -> string, createOk: bool)
      returns (r: Outcome<AuthError>, createCall: Option<RegisterRequest>)
      requires Valid()
      modifies this
      ensures Valid()
      ensures ConfirmEffect(r, pendingUsers, createCall) ==
              ConfirmStep(old(pendingUsers), email, otp, now, hash, createOk)
    {
      createCall := None;
      if email !in pendingUsers || pendingUsers[email].IsExpired(now) {
        r := Fail(RegistrationNotFoundOrExpired);
        return;
      }
      var pendingUser := pendingUsers[email];
      if pendingUser.otp != otp {
        r := Fail(OtpIncorrect);
        return;
      }
      var req := Hashed(pendingUser.registerRequest, hash);
      pendingUsers := pendingUsers[email := pendingUser.(registerRequest := req)];
      createCall := Some(req);
      if !createOk {
        r := Fail(CreateUserFailed);
        return;
      }
      pendingUsers := pendingUsers - {email};
      r := Pass;
    }

    /**
     * `login`: an empty reply is "account not found"; the lookup's own
     * failures propagate; a password BCrypt does not match is refused; on
     * success the token is issued for the account's username.
     */
    static function Login(req: LoginRequest, lookup: Lookup, matches: (string, string) -> bool,
                   issue: string -> string): (r: Result<LoginResponse, AuthError>)
      ensures r.Success? <==> lookup.Found? && matches(req.password, lookup.user.passwordHash)
      ensures r.Success? ==>
        r.value == LoginResponse(issue(lookup.user.username), lookup.user.id,
                                 lookup.user.username, lookup.user.email)
      ensures lookup.Empty? ==> r == Failure(AccountNotFound)
      ensures lookup.NotFound? ==> r == Failure(DirectoryNotFound)
      ensures lookup.Unavailable? ==> r == Failure(DirectoryUnavailable)
      ensures lookup.Found? && !matches(req.password, lookup.user.passwordHash) ==>
        r == Failure(PasswordIncorrect)
    {
      match lookup
      case Empty => Failure(AccountNotFound)
      case NotFound => Failure(DirectoryNotFound)
      case Unavailable => Failure(DirectoryUnavailable)
      case Found(user) =>
        if !matches(req.password, user.passwordHash) then Failure(PasswordIncorrect)
        else Success(LoginResponse(issue(user.username), user.id, user.username, user.email))
    }
  }
}
