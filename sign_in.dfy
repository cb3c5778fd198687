/** The sign-in screen (pages/SignIn.tsx): an email check, then a lookup
    of the loaded users by exact email and password. */
module SignIn {
  import opened Common
  import opened Model
  import opened EmailRule
  import opened Registration
  import opened UserSlice

  datatype SignInValues = SignInValues(email: string, password: string)

  /** The two errors pushed when no user matches, on both fields. */
  const WrongEmail: FieldError := FieldError(EmailField, "Email hoặc mật khẩu không đúng!")
  const WrongPassword: FieldError := FieldError(PasswordField, "Email hoặc mật khẩu không đúng!")

  predicate Matches(u: User, values: SignInValues) {
    u.email == values.email && u.password == values.password
  }

  /** `users.find(u => u.email === email && u.password === password)`. */
  function FindByCredentials(users: seq<User>, values: SignInValues): (r: Option<User>)
    ensures r.Some? ==> r.value in users && Matches(r.value, values)
    ensures r.None? <==> forall u :: u in users ==> !Matches(u, values)
  {
    if |users| == 0 then None
    else if Matches(users[0], values) then Some(users[0])
    else FindByCredentials(users[1..], values)
  }

  /** The match is the first user whose email and password both agree. */
  lemma {:induction false} FindByCredentialsFirst(users: seq<User>, values: SignInValues, i: nat)
    requires i < |users| && Matches(users[i], values)
    requires forall j :: 0 <= j < i ==> !Matches(users[j], values)
    ensures FindByCredentials(users, values) == Some(users[i])
  {
    if i > 0 {
      FindByCredentialsFirst(users[1..], values, i - 1);
    }
  }

  /** The errors `onFinish` collects. `fetched` is the loaded user list,
      `None` when the request fails, in which case the lookup is skipped
      and adds no error. */
  function Verdict(values: SignInValues, fetched: Option<seq<User>>): (errors: seq<FieldError>)
    ensures BadEmail in errors <==> !ValidEmail(values.email)
    ensures WrongEmail in errors <==> fetched.Some? && FindByCredentials(fetched.value, values).None?
    ensures (WrongEmail in errors) == (WrongPassword in errors)
    ensures forall e :: e in errors ==> e in [BadEmail, WrongEmail, WrongPassword]
  {
    (if !ValidEmail(values.email) then [BadEmail] else [])
    + (if fetched.Some? && FindByCredentials(fetched.value, values).None? then [WrongEmail, WrongPassword] else [])
  }

  /** `onFinish`: the session takes the matched user whenever there is one,
      even if the email check failed; the screen goes to `/home` exactly
      when no error was collected. */
  method OnFinish(session: UserSession, values: SignInValues, fetched: Option<seq<User>>)
    returns (errors: seq<FieldError>, navigated: bool)
    modifies session
    ensures errors == Verdict(values, fetched)
    ensures navigated <==> errors == []
    ensures fetched.Some? && FindByCredentials(fetched.value, values).Some? ==>
      session.user == FindByCredentials(fetched.value, values)
    ensures fetched.None? || FindByCredentials(fetched.value, values).None? ==>
      session.user == old(session.user)
  {
    errors := [];
    if !ValidEmail(values.email) {
      errors := errors + [BadEmail];
    }
    if fetched.Some? {
      var found := FindByCredentials(fetched.value, values);
      if found.None? {
        errors := errors + [WrongEmail];
        errors := errors + [WrongPassword];
      } else {
        session.SetUser(found);
      }
    }
    navigated := |errors| == 0;
  }

  /** With a loaded list, the screen moves on exactly when the email is
      well formed and some user matches. */
  lemma NavigatesIffSignedIn(values: SignInValues, users: seq<User>)
    ensures Verdict(values, Some(users)) == [] <==>
      ValidEmail(values.email) && FindByCredentials(users, values).Some?
  {
    if Verdict(values, Some(users)) == [] {
      assert BadEmail !in Verdict(values, Some(users));
      assert WrongEmail !in Verdict(values, Some(users));
    }
  }

  /** As written, a failed request collects no error, so a well-formed
      email moves on to `/home` with the session as it was. */
  lemma FailedRequestNavigates(values: SignInValues)
    requires ValidEmail(values.email)
    ensures Verdict(values, None) == []
  {
  }

  /** On a session nobody has signed in to yet, a well-formed email and a
      failed request reach `/home` with no user. */
  method FailedRequestOnFreshSession(values: SignInValues) returns (navigated: bool, user: Option<User>)
    requires ValidEmail(values.email)
    ensures navigated && user.None?
  {
    var session := new UserSession();
    var errors;
    errors, navigated := OnFinish(session, values, None);
    user := session.user;
  }

  /** The request failing is an error of its own. */
  const RequestFailed: FieldError := FieldError(EmailField, "Không thể tải danh sách người dùng")

  /** The verdict with a failed request counted as an error: moving on then
      means the email is well formed and a user matched. */
  function CheckedVerdict(values: SignInValues, fetched: Option<seq<User>>): (errors: seq<FieldError>)
    ensures errors == [] <==>
      ValidEmail(values.email) && fetched.Some? && FindByCredentials(fetched.value, values).Some?
    ensures fetched.Some? ==> errors == Verdict(values, fetched)
  {
    match fetched
    case None => Verdict(values, fetched) + [RequestFailed]
    case Some(users) =>
      NavigatesIffSignedIn(values, users);
      Verdict(values, fetched)
  }
}
