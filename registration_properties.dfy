/**
 * Properties of the registration handshake that span several calls of the
 * coordinator, stated over the step functions its methods are proved against.
 */
module RegistrationProperties {
  import opened Wrappers
  import opened Authentication

  /** A confirmation at exactly the expiry instant is still accepted; one second later it is not. */
  lemma ExpiryBoundary(pending: PendingMap, email: string, hash: string -> string, createOk: bool)
    requires email in pending
    ensures ConfirmStep(pending, email, pending[email].otp, pending[email].expiryTime, hash, createOk)
              .createCall.Some?
    ensures ConfirmStep(pending, email, pending[email].otp, pending[email].expiryTime + 1, hash, createOk)
            == ConfirmEffect(Fail(RegistrationNotFoundOrExpired), pending, None)
  {
  }

  /**
   * A wrong guess does not consume the attempt: the map is untouched, so the
   * correct OTP still succeeds at any later instant up to the expiry.
   */
  lemma WrongOtpThenCorrect(pending: PendingMap, email: string, guess: string, t1: int, t2: int,
                            hash: string -> string, ok1: bool)
    requires email in pending && guess != pending[email].otp
    requires t1 <= t2 <= pending[email].expiryTime
    ensures ConfirmStep(pending, email, guess, t1, hash, ok1).outcome == Fail(OtpIncorrect)
    ensures ConfirmStep(ConfirmStep(pending, email, guess, t1, hash, ok1).pending,
                        email, pending[email].otp, t2, hash, true).outcome == Pass
  {
    var first := ConfirmStep(pending, email, guess, t1, hash, ok1);
    assert first.pending == pending;
  }

  /** A successful confirmation consumes the entry: any repeat for that email fails as absent. */
  lemma ConfirmSucceedsOnce(pending: PendingMap, email: string, otp: string, t1: int,
                            hash: string -> string, otp2: string, t2: int, ok2: bool)
    requires ConfirmStep(pending, email, otp, t1, hash, true).outcome == Pass
    ensures
      var after := ConfirmStep(pending, email, otp, t1, hash, true).pending;
      ConfirmStep(after, email, otp2, t2, hash, ok2)
        == ConfirmEffect(Fail(RegistrationNotFoundOrExpired), after, None)
  {
  }

  /**
   * Register then confirm with the mailed code inside the 300-second window:
   * the directory receives exactly the registered request with its password
   * hashed once, and the pending map ends as it was before, minus that email.
   */
  lemma RegisterThenConfirmInTime(pending: PendingMap, req: RegisterRequest, t1: int, draw: nat,
                                  mailSent: bool, t2: int, hash: string -> string)
    requires draw < 900000 && t1 <= t2 <= t1 + OtpTtl
    ensures
      var reg := RegisterStep(pending, req, t1, NotFound, draw, mailSent);
      var conf := ConfirmStep(reg.pending, req.email, GenerateOtp(draw), t2, hash, true);
      && conf.outcome == Pass
      && conf.createCall == Some(Hashed(req, hash))
      && conf.pending == pending - {req.email}
  {
    var reg := RegisterStep(pending, req, t1, NotFound, draw, mailSent);
    var conf := ConfirmStep(reg.pending, req.email, GenerateOtp(draw), t2, hash, true);
    assert conf.pending.Keys == (pending - {req.email}).Keys;
  }

  /** Past the window the same code is refused and nothing reaches the directory. */
  lemma RegisterThenConfirmTooLate(pending: PendingMap, req: RegisterRequest, t1: int, draw: nat,
                                   mailSent: bool, t2: int, hash: string -> string, createOk: bool)
    requires draw < 900000 && t2 > t1 + OtpTtl
    ensures
      var reg := RegisterStep(pending, req, t1, NotFound, draw, mailSent);
      ConfirmStep(reg.pending, req.email, GenerateOtp(draw), t2, hash, createOk)
        == ConfirmEffect(Fail(RegistrationNotFoundOrExpired), reg.pending, None)
  {
  }

  /** A second registration for the same email replaces the first outright (last write wins). */
  lemma RegisterLastWriteWins(pending: PendingMap, a: RegisterRequest, b: RegisterRequest,
                              t1: int, t2: int, d1: nat, d2: nat, m1: bool, m2: bool)
    requires a.email == b.email && d1 < 900000 && d2 < 900000
    ensures
      RegisterStep(RegisterStep(pending, a, t1, NotFound, d1, m1).pending, b, t2, NotFound, d2, m2).pending
        == RegisterStep(pending, b, t2, NotFound, d2, m2).pending
  {
    var once := RegisterStep(pending, b, t2, NotFound, d2, m2).pending;
    var twice := RegisterStep(RegisterStep(pending, a, t1, NotFound, d1, m1).pending, b, t2, NotFound, d2, m2).pending;
    assert twice.Keys == once.Keys;
  }

  /** When the OTP mail fails the entry stays, and the code that was generated still confirms. */
  lemma MailFailureLeavesConfirmableEntry(pending: PendingMap, req: RegisterRequest, t1: int, draw: nat,
                                          t2: int, hash: string -> string)
    requires draw < 900000 && t1 <= t2 <= t1 + OtpTtl
    ensures RegisterStep(pending, req, t1, NotFound, draw, false).outcome == Fail(OtpSendFailed)
    ensures
      var reg := RegisterStep(pending, req, t1, NotFound, draw, false);
      ConfirmStep(reg.pending, req.email, GenerateOtp(draw), t2, hash, true).outcome == Pass
  {
  }

  /**
   * The hash is written into the stored request before `createUser` is
   * called, so after a failed `createUser` a retry with the right code sends
   * the hash of the hash, not the hash of the password.
   */
  lemma RetryAfterFailedCreateRehashes(pending: PendingMap, email: string, t1: int, t2: int,
                                       hash: string -> string, createOk: bool)
    requires email in pending && t1 <= t2 <= pending[email].expiryTime
    ensures
      var req := pending[email].registerRequest;
      var first := ConfirmStep(pending, email, pending[email].otp, t1, hash, false);
      var retry := ConfirmStep(first.pending, email, pending[email].otp, t2, hash, createOk);
      && first.outcome == Fail(CreateUserFailed)
      && first.pending[email].registerRequest.password == hash(req.password)
      && retry.createCall == Some(req.(password := hash(hash(req.password))))
  {
  }
}
