/** What the two sign-up screens (pages/SignUp.tsx and pages/user/SignUp.tsx)
    share: the form's values, the field errors they report and the record a
    successful sign-up posts. */
module Registration {
  import opened Common
  import opened Model

  /** The sign-up form; an omitted optional field is the empty string, as
      `values.fullname || ""` makes it. */
  datatype SignUpValues = SignUpValues(
    fullname: string,
    email: string,
    password: string,
    confirmPassword: string,
    phone: string)

  datatype Field = EmailField | PasswordField | ConfirmPasswordField

  /** One entry of the `errors` list handed to `form.setFields`. */
  datatype FieldError = FieldError(field: Field, message: string)

  const BadEmail: FieldError := FieldError(EmailField, "Vui lòng nhập địa chỉ email hợp lệ")
  const ShortPassword: FieldError := FieldError(PasswordField, "Mật khẩu phải có ít nhất 6 ký tự")
  const ConfirmMismatch: FieldError := FieldError(ConfirmPasswordField, "Mật khẩu xác nhận không khớp")

  /** `password.length < 6`. */
  predicate TooShort(password: string) {
    |password| < 6
  }

  function UserIds(users: seq<User>): (r: seq<nat>)
    ensures |r| == |users|
    ensures forall i :: 0 <= i < |users| ==> r[i] == users[i].id
  {
    seq(|users|, i requires 0 <= i < |users| => users[i].id)
  }

  /** The record posted on success: id one above the largest (1 for no
      users), the entered email and password, the optional fields or "",
      both flags true and no monthly rows. */
  function NewAccount(values: SignUpValues, users: seq<User>): (u: User)
    ensures forall v :: v in users ==> v.id < u.id
    ensures |users| == 0 ==> u.id == 1
    ensures |users| > 0 ==> exists v :: v in users && v.id == u.id - 1
    ensures u.email == values.email && u.password == values.password
    ensures u.fullname == values.fullname && u.phone == values.phone
    ensures u.gender && u.status && u.monthlyCategories == []
  {
    var ids := UserIds(users);
    var id := NextId(ids);
    assert forall v :: v in users ==> v.id in ids by {
      forall v | v in users ensures v.id in ids {
        var i :| 0 <= i < |users| && users[i] == v;
        assert ids[i] == v.id;
      }
    }
    assert |users| > 0 ==> exists i :: 0 <= i < |users| && users[i].id == id - 1;
    User(id, values.fullname, values.email, values.password, values.phone, true, true, [])
  }

  predicate UniqueUserIds(users: seq<User>) {
    forall i, j :: 0 <= i < j < |users| ==> users[i].id != users[j].id
  }

  /** Appending the new account keeps the user ids unique. */
  lemma NewAccountKeepsIdsUnique(values: SignUpValues, users: seq<User>)
    requires UniqueUserIds(users)
    ensures UniqueUserIds(users + [NewAccount(values, users)])
  {
    var all := users + [NewAccount(values, users)];
    forall i, j | 0 <= i < j < |all| ensures all[i].id != all[j].id {
      if j == |users| {
        assert all[i] in users;
      }
    }
  }
}
