/** The end-user sign-up screen (pages/user/SignUp.tsx): four field checks,
    then an account with the next id, with no check that the email is new. */
module UserSignUp {
  import opened Common
  import opened Model
  import opened EmailRule
  import opened Registration

  /** The error this screen pushes when the password lacks `@`. */
  const MissingAt: FieldError := FieldError(PasswordField, "Vui lòng nhập email dung")

  /** `validPass`: the pattern `/@/` occurs in the password. */
  predicate ValidPass(password: string) {
    '@' in password
  }

  /** The checks in the order `onFinish` pushes their errors: email,
      length, `@`, confirmation. */
  function Validate(values: SignUpValues): (errors: seq<FieldError>)
    ensures BadEmail in errors <==> !ValidEmail(values.email)
    ensures ShortPassword in errors <==> TooShort(values.password)
    ensures MissingAt in errors <==> !ValidPass(values.password)
    ensures ConfirmMismatch in errors <==> values.password != values.confirmPassword
    ensures forall e :: e in errors ==> e in [BadEmail, ShortPassword, MissingAt, ConfirmMismatch]
  {
    (if !ValidEmail(values.email) then [BadEmail] else [])
    + (if TooShort(values.password) then [ShortPassword] else [])
    + (if !ValidPass(values.password) then [MissingAt] else [])
    + (if values.password != values.confirmPassword then [ConfirmMismatch] else [])
  }

  /** `onFinish`. `fetched` is the user list the screen loads (`None` when
      the request fails) and `posted` whether creating the account
      succeeds. Every failing check is reported and stops the sign-up;
      otherwise the account is built from the loaded list and returned
      once it is posted, which is when the screen goes to `/signin`. */
  method OnFinish(values: SignUpValues, fetched: Option<seq<User>>, posted: bool)
    returns (errors: seq<FieldError>, created: Option<User>)
    ensures errors == Validate(values)
    ensures created.Some? <==> errors == [] && fetched.Some? && posted
    ensures created.Some? ==> created.value == NewAccount(values, fetched.value)
  {
    errors := [];
    if !ValidEmail(values.email) {
      errors := errors + [BadEmail];
    }
    ghost var checked := errors;
    assert checked == if !ValidEmail(values.email) then [BadEmail] else [];
    if TooShort(values.password) {
      errors := errors + [ShortPassword];
    }
    assert errors == checked + if TooShort(values.password) then [ShortPassword] else [];
    checked := errors;
    if !ValidPass(values.password) {
      errors := errors + [MissingAt];
    }
    assert errors == checked + if !ValidPass(values.password) then [MissingAt] else [];
    checked := errors;
    if values.password != values.confirmPassword {
      errors := errors + [ConfirmMismatch];
    }
    assert errors == checked + if values.password != values.confirmPassword then [ConfirmMismatch] else [];
    if |errors| > 0 {
      return errors, None;
    }
    if fetched.None? {
      return errors, None;
    }
    var account := NewAccount(values, fetched.value);
    if !posted {
      return errors, None;
    }
    created := Some(account);
  }

  /** Nothing here looks at the other accounts' emails: a form that passes
      the checks is accepted even when the email is already registered. */
  lemma DuplicateEmailAccepted(existing: User)
    requires existing.email == "a@b.c"
    ensures var values := SignUpValues("", "a@b.c", "secret@1", "secret@1", "");
      Validate(values) == [] && NewAccount(values, [existing]).email == existing.email
  {
    var values := SignUpValues("", "a@b.c", "secret@1", "secret@1", "");
    EmailAccepted();
    assert '@' in values.password by { assert values.password[6] == '@'; }
  }
}
