/** The older sign-up screen (pages/SignUp.tsx): three field checks (no `@`
    rule for the password), then a check that the email is not registered,
    then an account with the next id. */
module SignUp {
  import opened Common
  import opened Model
  import opened EmailRule
  import opened Registration

  const EmailExists: FieldError := FieldError(EmailField, "Email đã tồn tại!")

  /** The checks in the order `onFinish` pushes their errors: email,
      length, confirmation. */
  function Validate(values: SignUpValues): (errors: seq<FieldError>)
    ensures BadEmail in errors <==> !ValidEmail(values.email)
    ensures ShortPassword in errors <==> TooShort(values.password)
    ensures ConfirmMismatch in errors <==> values.password != values.confirmPassword
    ensures forall e :: e in errors ==> e in [BadEmail, ShortPassword, ConfirmMismatch]
  {
    (if !ValidEmail(values.email) then [BadEmail] else [])
    + (if TooShort(values.password) then [ShortPassword] else [])
    + (if values.password != values.confirmPassword then [ConfirmMismatch] else [])
  }

  /** `users.some(u => u.email === values.email)`: exact comparison. */
  predicate EmailTaken(users: seq<User>, email: string) {
    exists u :: u in users && u.email == email
  }

  /** `onFinish`. `fetched` is the user list loaded for the duplicate check
      (`None` when the request fails) and `posted` whether creating the
      account succeeds. A failing field check is reported and stops the
      sign-up before anything is loaded; a registered email is reported and
      stops it too; otherwise the account is returned once it is posted,
      which is when the screen goes to `/signin`. */
  method OnFinish(values: SignUpValues, fetched: Option<seq<User>>, posted: bool)
    returns (errors: seq<FieldError>, created: Option<User>)
    ensures Validate(values) != [] ==> errors == Validate(values)
    ensures Validate(values) == [] ==>
      (errors == [EmailExists] <==> fetched.Some? && EmailTaken(fetched.value, values.email))
      && (errors == [] <==> fetched.None? || !EmailTaken(fetched.value, values.email))
    ensures created.Some? <==>
      Validate(values) == [] && fetched.Some? && !EmailTaken(fetched.value, values.email) && posted
    ensures created.Some? ==>
      created.value == NewAccount(values, fetched.value)
      && forall u :: u in fetched.value ==> u.email != created.value.email
  {
    errors := [];
    if !ValidEmail(values.email) {
      errors := errors + [BadEmail];
    }
    if TooShort(values.password) {
      errors := errors + [ShortPassword];
    }
    if values.password != values.confirmPassword {
      errors := errors + [ConfirmMismatch];
    }
    if |errors| > 0 {
      return errors, None;
    }
    if fetched.None? {
      return errors, None;
    }
    var users := fetched.value;
    if exists u :: u in users && u.email == values.email {
      return [EmailExists], None;
    }
    var account := NewAccount(values, users);
    if !posted {
      return errors, None;
    }
    created := Some(account);
  }

  predicate UniqueEmails(users: seq<User>) {
    forall i, j :: 0 <= i < j < |users| ==> users[i].email != users[j].email
  }

  /** An accepted sign-up keeps both the ids and the emails of the user
      list unique. */
  lemma SignUpKeepsUsersUnique(values: SignUpValues, users: seq<User>)
    requires UniqueUserIds(users) && UniqueEmails(users)
    requires !EmailTaken(users, values.email)
    ensures var all := users + [NewAccount(values, users)];
      UniqueUserIds(all) && UniqueEmails(all)
  {
    NewAccountKeepsIdsUnique(values, users);
    var all := users + [NewAccount(values, users)];
    forall i, j | 0 <= i < j < |all| ensures all[i].email != all[j].email {
      if j == |users| {
        assert all[i] in users;
      }
    }
  }

  /** Unlike the end-user screen, a password without `@` is accepted. */
  lemma NoAtRule()
    ensures Validate(SignUpValues("", "a@b.c", "secret", "secret", "")) == []
  {
    EmailAccepted();
  }
}
