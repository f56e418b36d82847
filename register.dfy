/** The registration form: its ordered validation chain and the submit
    handler around the `register` call. */
module Register {
  import opened Base
  import opened Strings
  import opened Errors
  import opened Auth

  const RegisterTitle: string := "Register"
  const EnterEmailAndPassword: string := "Enter email and password"
  const PasswordsDoNotMatch: string := "Passwords do not match"
  const PasswordTooShort: string := "Password must be at least 8 characters"
  const MinPasswordLength: nat := 8
  const AccountCreatedTitle: string := "Account created"
  const AccountCreatedMessage: string :=
    "Create an API key in Etu web Settings and sign in with it here, or use Email sign-in if your backend supports it."
  const RegistrationFailed: string := "Registration failed"

  datatype Alert = Alert(title: string, message: string)

  /** The message of the first failing check, or `None` when all pass: a
      blank email or an empty password, then a mismatched confirmation, then
      a password shorter than 8 characters. */
  function Validate(email: string, password: string, confirmPassword: string): (r: Option<string>)
    ensures r.None? <==> Trim(email) != [] && password != [] && password == confirmPassword && |password| >= MinPasswordLength
    ensures Trim(email) == [] || password == [] ==> r == Some(EnterEmailAndPassword)
    ensures Trim(email) != [] && password != [] && password != confirmPassword ==> r == Some(PasswordsDoNotMatch)
    ensures Trim(email) != [] && password != [] && password == confirmPassword && |password| < MinPasswordLength ==>
      r == Some(PasswordTooShort)
  {
    if Trim(email) == [] || password == [] then Some(EnterEmailAndPassword)
    else if password != confirmPassword then Some(PasswordsDoNotMatch)
    else if |password| < MinPasswordLength then Some(PasswordTooShort)
    else None
  }

  /** The chain on the boundary cases: a mismatch is reported before the
      length rule, 7 characters are too few and exactly 8 are enough, and a
      blank email wins over everything. */
  lemma ValidationOrder(email: string)
    requires Trim(email) != []
    ensures Validate(email, "short", "other") == Some(PasswordsDoNotMatch)
    ensures Validate(email, "1234567", "1234567") == Some(PasswordTooShort)
    ensures Validate(email, "12345678", "12345678") == None
    ensures Validate(" ", "x", "y") == Some(EnterEmailAndPassword)
  {
    assert "short" != "other" by { assert "short"[0] != "other"[0]; }
    assert |"1234567"| == 7 && |"12345678"| == 8;
    assert "x" != [] && "x" != "y";
    assert Trim(" ") == [] by {
      assert forall i :: 0 <= i < |" "| ==> IsJsSpace(" "[i]);
    }
  }

  /** The text shown when registration fails: the error's message for an
      `Error` (a Connect error is one), a fixed text for any other value. */
  function FailureMessage(e: ApiError): (r: string)
    ensures e.Connect? || e.Plain? ==> r == e.message
    ensures e.Other? ==> r == RegistrationFailed
  {
    match e
    case Connect(_, message, _) => message
    case Plain(message) => message
    case Other(_) => RegistrationFailed
  }

  class RegisterScreen {
    var loading: bool

    constructor ()
      ensures !loading
    {
      loading := false;
    }

    /** `handleRegister()`: `result` is the outcome of the registration RPC
        and `stored` the keychain read that follows it. On a failed check the
        first failing message is shown and nothing is called; otherwise
        `register` is called with the raw email and password while `loading`
        is set, and `loading` is cleared afterwards whatever the outcome. */
    method HandleRegister(auth: AuthSession, email: string, password: string, confirmPassword: string,
                          result: Result<User, ApiError>, stored: Option<StoredAuth>)
      returns (alert: Alert, sent: Option<Credentials>, loadingDuringCall: bool)
      requires auth.Valid()
      modifies this, auth
      ensures auth.Valid()
      ensures Validate(email, password, confirmPassword).Some? ==>
        alert == Alert(RegisterTitle, Validate(email, password, confirmPassword).value)
        && sent.None? && !loadingDuringCall && loading == old(loading) && auth.State() == old(auth.State())
      ensures Validate(email, password, confirmPassword).None? ==>
        sent == Some(Credentials(Trim(email), password)) && loadingDuringCall && !loading
        && auth.State() == SignedIn(old(auth.State()), result, stored)
        && alert == if result.Ok? then Alert(AccountCreatedTitle, AccountCreatedMessage)
                    else Alert(RegisterTitle, FailureMessage(result.error))
    {
      if Trim(email) == [] || password == [] {
        return Alert(RegisterTitle, EnterEmailAndPassword), None, false;
      }
      if password != confirmPassword {
        return Alert(RegisterTitle, PasswordsDoNotMatch), None, false;
      }
      if |password| < MinPasswordLength {
        return Alert(RegisterTitle, PasswordTooShort), None, false;
      }
      loading := true;
      loadingDuringCall := loading;
      var credentials, failure := auth.Register(email, password, result, stored);
      sent := Some(credentials);
      if failure.None? {
        alert := Alert(AccountCreatedTitle, AccountCreatedMessage);
      } else {
        alert := Alert(RegisterTitle, FailureMessage(failure.value));
      }
      loading := false;
    }
  }
}
