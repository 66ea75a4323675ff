/**
  The user account of src/core/models/user.py: activation, e-mail
  confirmation and password reset with an expiring token.

  Account is the value of a user's fields at one moment, and the functions
  below say what each method does to it; the class User holds the fields
  and its methods are proved to do exactly that.  The clock (datetime.now),
  the fresh tokens (uuid4().hex) and the new password's hash (bcrypt) come
  in as parameters.  Moments are whole seconds.
*/
module Users {
  import opened Wrappers

  type Instant = int

  /** `timedelta(hours=1)`, in seconds. */
  const PasswordResetTokenLifetime: nat := 3600

  datatype Date = Date(year: int, month: int, day: int)

  datatype UserError =
    | AlreadyActive   // AlreadyActiveError
    | UserNotActive   // UserNotActiveError
    | InvalidToken    // InvalidTokenError
    | ExpiredToken    // ExpiredTokenError

  datatype Account = Account(
    email: string,
    passwordHash: string,
    isActive: bool,
    emailConfirmationToken: Option<string>,
    passwordResetToken: Option<string>,
    passwordResetTokenExpiresAt: Option<Instant>,
    firstName: Option<string>,
    lastName: Option<string>,
    dateOfBirth: Option<Date>)

  /** An account after a method, and whether the method raised. */
  datatype Step = Step(account: Account, result: Result<(), UserError>)

  /** `User(email=..., password_hash=...)` with every other field at its default. */
  function NewAccount(email: string, passwordHash: string): Account
  {
    Account(email, passwordHash, false, None, None, None, None, None, None)
  }

  function WithEmailToken(a: Account, token: string): Account
  {
    a.(emailConfirmationToken := Some(token))
  }

  function WithResetToken(a: Account, token: string, now: Instant): Account
  {
    a.(passwordResetToken := Some(token), passwordResetTokenExpiresAt := Some(now + PasswordResetTokenLifetime))
  }

  function Activated(a: Account): Step
  {
    if a.isActive then Step(a, Err(AlreadyActive)) else Step(a.(isActive := true), Ok(()))
  }

  /** The token is cleared before activation, so it stays cleared when activation raises. */
  function ConfirmedEmail(a: Account, token: string): Step
  {
    if a.emailConfirmationToken != Some(token) then Step(a, Err(InvalidToken))
    else Activated(a.(emailConfirmationToken := None))
  }

  function Deactivated(a: Account): Step
  {
    if !a.isActive then Step(a, Err(UserNotActive)) else Step(a.(isActive := false), Ok(()))
  }

  /** A missing expiry counts as expired, and so does one equal to now. */
  function PasswordReset(a: Account, token: string, newPasswordHash: string, now: Instant): Step
  {
    if a.passwordResetToken != Some(token) then Step(a, Err(InvalidToken))
    else if a.passwordResetTokenExpiresAt.None? || a.passwordResetTokenExpiresAt.value <= now then Step(a, Err(ExpiredToken))
    else Step(a.(passwordHash := newPasswordHash, passwordResetToken := None, passwordResetTokenExpiresAt := None), Ok(()))
  }

  function EmailContext(a: Account): (c: map<string, Option<string>>)
    ensures c.Keys == {"first_name", "last_name", "email", "email_confirmation_token", "password_reset_token"}
    ensures c["first_name"] == a.firstName && c["last_name"] == a.lastName
    ensures c["email"] == Some(a.email)
    ensures c["email_confirmation_token"] == a.emailConfirmationToken
    ensures c["password_reset_token"] == a.passwordResetToken
  {
    map["first_name" := a.firstName, "last_name" := a.lastName, "email" := Some(a.email),
        "email_confirmation_token" := a.emailConfirmationToken,
        "password_reset_token" := a.passwordResetToken]
  }

  // ---- what the methods promise ---------------------------------------------

  /** activate raises on an active user and changes nothing; otherwise it sets is_active and nothing else. */
  lemma ActivateOutcome(a: Account)
    ensures Activated(a).result.Ok? <==> !a.isActive
    ensures Activated(a).result.Ok? ==> Activated(a).account == a.(isActive := true)
    ensures Activated(a).result.Err? ==> Activated(a) == Step(a, Err(AlreadyActive))
    ensures Activated(a).account.isActive
  {
  }

  /** deactivate undoes activate, and activate undoes deactivate. */
  lemma ActivationRoundTrip(a: Account)
    ensures !a.isActive ==> Deactivated(Activated(a).account) == Step(a, Ok(()))
    ensures a.isActive ==> Activated(Deactivated(a).account) == Step(a, Ok(()))
    ensures !a.isActive ==> Deactivated(a) == Step(a, Err(UserNotActive))
  {
  }

  /**
    confirm_email with anything but the stored token raises and changes
    nothing; with it, the token is cleared and the user activated, and on an
    active user the token is still cleared before AlreadyActive is raised.
  */
  lemma ConfirmEmailOutcome(a: Account, token: string)
    ensures a.emailConfirmationToken != Some(token) ==> ConfirmedEmail(a, token) == Step(a, Err(InvalidToken))
    ensures a.emailConfirmationToken == Some(token) && !a.isActive ==>
              ConfirmedEmail(a, token) == Step(a.(emailConfirmationToken := None, isActive := true), Ok(()))
    ensures a.emailConfirmationToken == Some(token) && a.isActive ==>
              ConfirmedEmail(a, token) == Step(a.(emailConfirmationToken := None), Err(AlreadyActive))
  {
  }

  /** A new account has no token, so no confirmation succeeds before one is generated. */
  lemma NoTokenNoConfirmation(email: string, passwordHash: string, token: string, now: Instant, h: string)
    ensures ConfirmedEmail(NewAccount(email, passwordHash), token).result == Err(InvalidToken)
    ensures PasswordReset(NewAccount(email, passwordHash), token, h, now).result == Err(InvalidToken)
  {
  }

  /** Generating a token again invalidates the previous one. */
  lemma NewTokenInvalidatesOld(a: Account, t1: string, t2: string, n1: Instant, n2: Instant, h: string, now: Instant)
    requires t1 != t2
    ensures ConfirmedEmail(WithEmailToken(WithEmailToken(a, t1), t2), t1).result == Err(InvalidToken)
    ensures ConfirmedEmail(WithEmailToken(WithEmailToken(a, t1), t2), t2).result.Ok? <==> !a.isActive
    ensures PasswordReset(WithResetToken(WithResetToken(a, t1, n1), t2, n2), t1, h, now).result == Err(InvalidToken)
  {
  }

  /** A token confirms once: afterwards every confirmation raises InvalidToken. */
  lemma ConfirmEmailOnce(a: Account, token: string, again: string)
    ensures ConfirmedEmail(ConfirmedEmail(a, token).account, again).result == Err(InvalidToken)
            || a.emailConfirmationToken != Some(token)
  {
  }

  /**
    reset_password checks the token before the expiry: a wrong token raises
    InvalidToken even when expired; a right token with no expiry, or one not
    after now, raises ExpiredToken; neither changes anything.  Success stores
    the new hash and clears the token and its expiry.
  */
  lemma ResetPasswordOutcome(a: Account, token: string, h: string, now: Instant)
    ensures a.passwordResetToken != Some(token) ==> PasswordReset(a, token, h, now) == Step(a, Err(InvalidToken))
    ensures a.passwordResetToken == Some(token)
            && (a.passwordResetTokenExpiresAt.None? || a.passwordResetTokenExpiresAt.value <= now) ==>
              PasswordReset(a, token, h, now) == Step(a, Err(ExpiredToken))
    ensures PasswordReset(a, token, h, now).result.Ok? ==>
              && PasswordReset(a, token, h, now).account.passwordHash == h
              && PasswordReset(a, token, h, now).account.passwordResetToken.None?
              && PasswordReset(a, token, h, now).account.passwordResetTokenExpiresAt.None?
              && PasswordReset(a, token, h, now).account.isActive == a.isActive
              && PasswordReset(a, token, h, now).account.emailConfirmationToken == a.emailConfirmationToken
  {
  }

  /** A reset token issued at t is accepted exactly up to, and not at, one hour later. */
  lemma ResetTokenLifetime(a: Account, token: string, issuedAt: Instant, h: string, now: Instant)
    ensures PasswordReset(WithResetToken(a, token, issuedAt), token, h, now).result.Ok?
            <==> now < issuedAt + PasswordResetTokenLifetime
    ensures PasswordReset(WithResetToken(a, token, issuedAt), token, h, issuedAt + 3600).result == Err(ExpiredToken)
  {
  }

  /** A reset token works once. */
  lemma ResetPasswordOnce(a: Account, token: string, h: string, now: Instant, again: string, h2: string, later: Instant)
    requires PasswordReset(a, token, h, now).result.Ok?
    ensures PasswordReset(PasswordReset(a, token, h, now).account, again, h2, later).result == Err(InvalidToken)
  {
  }

  // ---- the class --------------------------------------------------------------

  class User {
    const id: nat
    var email: string
    var passwordHash: string
    var isActive: bool
    var emailConfirmationToken: Option<string>
    var passwordResetToken: Option<string>
    var passwordResetTokenExpiresAt: Option<Instant>
    var firstName: Option<string>
    var lastName: Option<string>
    var dateOfBirth: Option<Date>

    function Snapshot(): Account
      reads this
    {
      Account(email, passwordHash, isActive, emailConfirmationToken, passwordResetToken,
              passwordResetTokenExpiresAt, firstName, lastName, dateOfBirth)
    }

    constructor(id: nat, email: string, passwordHash: string)
      ensures this.id == id && Snapshot() == NewAccount(email, passwordHash)
    {
      this.id := id;
      this.email := email;
      this.passwordHash := passwordHash;
      isActive := false;
      emailConfirmationToken := None;
      passwordResetToken := None;
      passwordResetTokenExpiresAt := None;
      firstName := None;
      lastName := None;
      dateOfBirth := None;
    }

    /** `newToken` is the new uuid4 hex string. */
    method GenerateEmailConfirmationToken(newToken: string) returns (token: string)
      modifies this
      ensures token == newToken && Snapshot() == WithEmailToken(old(Snapshot()), newToken)
    {
      emailConfirmationToken := Some(newToken);
      token := emailConfirmationToken.value;
    }

    method GeneratePasswordResetToken(newToken: string, now: Instant) returns (token: string)
      modifies this
      ensures token == newToken && Snapshot() == WithResetToken(old(Snapshot()), newToken, now)
    {
      passwordResetToken := Some(newToken);
      passwordResetTokenExpiresAt := Some(now + PasswordResetTokenLifetime);
      token := passwordResetToken.value;
    }

    method Activate() returns (r: Result<(), UserError>)
      modifies this
      ensures Step(Snapshot(), r) == Activated(old(Snapshot()))
    {
      if isActive {
        return Err(AlreadyActive);
      }
      isActive := true;
      r := Ok(());
    }

    method ConfirmEmail(token: string) returns (r: Result<(), UserError>)
      modifies this
      ensures Step(Snapshot(), r) == ConfirmedEmail(old(Snapshot()), token)
    {
      if emailConfirmationToken != Some(token) {
        return Err(InvalidToken);
      }
      emailConfirmationToken := None;
      r := Activate();
    }

    method Deactivate() returns (r: Result<(), UserError>)
      modifies this
      ensures Step(Snapshot(), r) == Deactivated(old(Snapshot()))
    {
      if !isActive {
        return Err(UserNotActive);
      }
      isActive := false;
      r := Ok(());
    }

    /** `newPasswordHash` is `get_password_hash(new_password)`. */
    method ResetPassword(token: string, newPasswordHash: string, now: Instant) returns (r: Result<(), UserError>)
      modifies this
      ensures Step(Snapshot(), r) == PasswordReset(old(Snapshot()), token, newPasswordHash, now)
    {
      if passwordResetToken != Some(token) {
        return Err(InvalidToken);
      }
      if passwordResetTokenExpiresAt.None? || passwordResetTokenExpiresAt.value <= now {
        return Err(ExpiredToken);
      }
      passwordHash := newPasswordHash;
      passwordResetToken := None;
      passwordResetTokenExpiresAt := None;
      r := Ok(());
    }

    method GetEmailContext() returns (c: map<string, Option<string>>)
      ensures c == EmailContext(Snapshot())
      ensures c.Keys == {"first_name", "last_name", "email", "email_confirmation_token", "password_reset_token"}
    {
      c := map["first_name" := firstName, "last_name" := lastName, "email" := Some(email),
               "email_confirmation_token" := emailConfirmationToken,
               "password_reset_token" := passwordResetToken];
    }
  }
}
