/** The older home screen (pages/Home.tsx). It shows the budget of the first
    row of the month whatever its category, saves a total by ADDING the
    input to that row, and edits the profile and the password. */
module LegacyHome {
  import opened Common
  import opened Model
  import opened Budget
  import opened UserSlice

  // ---------------------------------------------------------------------
  // The displayed budget and the additive save
  // ---------------------------------------------------------------------

  /** The first row of month `m`, whatever its category. */
  function FirstOfMonth(rows: seq<MonthlyRow>, m: YearMonth): (r: Option<MonthlyRow>)
    ensures r.Some? ==> r.value in rows && r.value.month == m
    ensures r.None? <==> forall i :: 0 <= i < |rows| ==> rows[i].month != m
  {
    if |rows| == 0 then None
    else if rows[0].month == m then Some(rows[0])
    else FirstOfMonth(rows[1..], m)
  }

  lemma {:induction false} FirstOfMonthAt(rows: seq<MonthlyRow>, m: YearMonth, i: nat)
    requires i < |rows| && rows[i].month == m
    requires forall j :: 0 <= j < i ==> rows[j].month != m
    ensures FirstOfMonth(rows, m) == Some(rows[i])
  {
    if i > 0 {
      FirstOfMonthAt(rows[1..], m, i - 1);
    }
  }

  /** `current ? current.categories.budget : 0`. */
  function DisplayedBudget(rows: seq<MonthlyRow>, m: YearMonth): int {
    match FirstOfMonth(rows, m)
    case Some(r) => r.categories.budget
    case None => 0
  }

  /** The displayed budget agrees with the total of the newer screens when
      the month's first row is its total row, and is the allocation's
      amount when the first row is an allocation. */
  lemma DisplayedVersusTotal(rows: seq<MonthlyRow>, m: YearMonth, i: nat)
    requires i < |rows| && rows[i].month == m
    requires forall j :: 0 <= j < i ==> rows[j].month != m
    ensures DisplayedBudget(rows, m) == rows[i].categories.budget
    ensures IsTotalOf(rows[i], m) ==> DisplayedBudget(rows, m) == TotalBudget(rows, m)
  {
    FirstOfMonthAt(rows, m, i);
    if IsTotalOf(rows[i], m) {
      FindTotalAt(rows, m, i);
    }
  }

  /** `{ ...item, categories: updatedCategories }`: the whole embedded
      record is replaced by the one built from the first row. */
  function WithCategories(c: CategoryBudget): MonthlyRow -> MonthlyRow {
    (r: MonthlyRow) => r.(categories := c)
  }

  /** `handleSaveBudget` of this screen: add `x` to the budget of the
      month's first row, or append a total row when the month has none. */
  function SaveAdditive(rows: seq<MonthlyRow>, m: YearMonth, x: int): seq<MonthlyRow> {
    match FirstOfMonth(rows, m)
    case Some(f) =>
      MapById(rows, f.id, WithCategories(f.categories.(budget := f.categories.budget + x)))
    case None => rows + [NewRow(rows, m, TotalCategoryId, x)]
  }

  /** With a row for the month, the first one's budget grows by `x`; its
      category, the length and every other row stay as they were. */
  lemma SaveAdditiveAdds(rows: seq<MonthlyRow>, m: YearMonth, x: int, i: nat)
    requires UniqueIds(rows)
    requires i < |rows| && rows[i].month == m
    requires forall j :: 0 <= j < i ==> rows[j].month != m
    ensures var r := SaveAdditive(rows, m, x);
      |r| == |rows|
      && r[i] == rows[i].(categories := rows[i].categories.(budget := rows[i].categories.budget + x))
      && forall j :: 0 <= j < |rows| && j != i ==> r[j] == rows[j]
  {
    FirstOfMonthAt(rows, m, i);
  }

  /** Without a row for the month, one total row is appended with the next
      id, mirrored in its embedded record, and the input as budget. */
  lemma SaveAdditiveAppends(rows: seq<MonthlyRow>, m: YearMonth, x: int)
    requires forall i :: 0 <= i < |rows| ==> rows[i].month != m
    ensures var r := SaveAdditive(rows, m, x);
      |r| == |rows| + 1 && r[..|rows|] == rows
      && r[|rows|].id == NextRowId(rows) && r[|rows|].categories.id == NextRowId(rows)
      && r[|rows|].categories.categoryId == TotalCategoryId
      && r[|rows|].categories.budget == x && r[|rows|].month == m
  {
    assert (rows + [NewRow(rows, m, TotalCategoryId, x)])[..|rows|] == rows;
  }

  /** The additive save keeps the row ids unique. */
  lemma SaveAdditiveUnique(rows: seq<MonthlyRow>, m: YearMonth, x: int)
    requires UniqueIds(rows)
    ensures UniqueIds(SaveAdditive(rows, m, x))
  {
    var r := SaveAdditive(rows, m, x);
    match FirstOfMonth(rows, m)
    case Some(f) =>
      assert forall i :: 0 <= i < |r| ==> r[i].id == rows[i].id;
    case None =>
      var n := NewRow(rows, m, TotalCategoryId, x);
      assert forall i :: 0 <= i < |rows| ==> r[i] == rows[i];
      assert r[|rows|] == n;
  }

  /** After a save the displayed budget is the old one plus the input. */
  lemma SaveAdditiveDisplayed(rows: seq<MonthlyRow>, m: YearMonth, x: int)
    requires UniqueIds(rows)
    ensures DisplayedBudget(SaveAdditive(rows, m, x), m) == DisplayedBudget(rows, m) + x
  {
    var r := SaveAdditive(rows, m, x);
    if i :| 0 <= i < |rows| && rows[i].month == m {
      var k := FirstMonthIndex(rows, m, i);
      SaveAdditiveAdds(rows, m, x, k);
      assert forall j :: 0 <= j < k ==> r[j] == rows[j];
      FirstOfMonthAt(r, m, k);
      FirstOfMonthAt(rows, m, k);
    } else {
      SaveAdditiveAppends(rows, m, x);
      assert forall j :: 0 <= j < |rows| ==> r[j] == rows[j];
      FirstOfMonthAt(r, m, |rows|);
    }
  }

  /** The index of the month's first row, given any row of that month. */
  lemma {:induction false} FirstMonthIndex(rows: seq<MonthlyRow>, m: YearMonth, i: nat) returns (k: nat)
    requires i < |rows| && rows[i].month == m
    ensures k <= i && rows[k].month == m
    ensures forall j :: 0 <= j < k ==> rows[j].month != m
  {
    if rows[0].month == m {
      k := 0;
    } else {
      var k' := FirstMonthIndex(rows[1..], m, i - 1);
      k := k' + 1;
      assert forall j :: 1 <= j < k ==> rows[j] == rows[1..][j - 1];
    }
  }

  /** Saving the same input twice adds it twice: the save is not
      idempotent, unlike the overwrite of the newer screens. */
  lemma SaveAdditiveTwice(rows: seq<MonthlyRow>, m: YearMonth, x: int)
    requires UniqueIds(rows)
    ensures DisplayedBudget(SaveAdditive(SaveAdditive(rows, m, x), m, x), m) == DisplayedBudget(rows, m) + 2 * x
  {
    SaveAdditiveDisplayed(rows, m, x);
    SaveAdditiveUnique(rows, m, x);
    SaveAdditiveDisplayed(SaveAdditive(rows, m, x), m, x);
  }

  /** Where the month's first row is a non-zero total, this screen's save
      and the newer screens' overwrite give different rows. */
  lemma SaveAdditiveDiverges(rows: seq<MonthlyRow>, m: YearMonth, x: int, i: nat)
    requires UniqueIds(rows)
    requires i < |rows| && IsTotalOf(rows[i], m) && rows[i].categories.budget != 0
    requires forall j :: 0 <= j < i ==> rows[j].month != m
    ensures SaveAdditive(rows, m, x) != SetMonthlyTotal(rows, m, x)
  {
    SaveAdditiveAdds(rows, m, x, i);
    SetTotalOverwrites(rows, m, x, i);
  }

  lemma SaveAdditiveWellFormed(rows: seq<MonthlyRow>, m: YearMonth, x: int)
    requires WellFormed(rows)
    ensures WellFormed(SaveAdditive(rows, m, x))
  {
    match FirstOfMonth(rows, m)
    case Some(f) =>
      var r := SaveAdditive(rows, m, x);
      assert forall i :: 0 <= i < |r| ==> r[i].id == rows[i].id;
      assert forall i :: 0 <= i < |r| && rows[i].id != f.id ==> r[i] == rows[i];
      assert forall i :: 0 <= i < |r| && rows[i].id == f.id ==> r[i].categories.id == f.categories.id;
    case None => AppendNewRowWellFormed(rows, m, TotalCategoryId, x);
  }

  // ---------------------------------------------------------------------
  // Profile and password
  // ---------------------------------------------------------------------

  /** The edit form's values; `gender` is the selected label. */
  datatype InfoValues = InfoValues(fullname: string, phone: string, email: string, gender: string)

  /** `{ ...user, ...values, gender: values.gender === "Male" }`. */
  function UpdatedInfo(u: User, v: InfoValues): (r: User)
    ensures r.fullname == v.fullname && r.phone == v.phone && r.email == v.email
    ensures r.gender <==> v.gender == "Male"
    ensures r.id == u.id && r.password == u.password && r.status == u.status
    ensures r.monthlyCategories == u.monthlyCategories
  {
    u.(fullname := v.fullname, phone := v.phone, email := v.email, gender := v.gender == "Male")
  }

  /** The values the form is filled with when it opens. */
  function FormOf(u: User): InfoValues {
    InfoValues(u.fullname, u.phone, u.email, if u.gender then "Male" else "Female")
  }

  /** Submitting the form as it was filled gives back the same user. */
  lemma UpdateUntouchedForm(u: User)
    ensures UpdatedInfo(u, FormOf(u)) == u
  {
  }

  datatype PasswordResult = WrongOldPassword | ConfirmMismatch | Changed(user: User)

  /** The checks of `handleChangePassword`, old password first. */
  function PasswordChange(u: User, oldPassword: string, newPassword: string, confirm: string): (r: PasswordResult)
    ensures r.Changed? <==> oldPassword == u.password && newPassword == confirm
    ensures r == WrongOldPassword <==> oldPassword != u.password
    ensures r.Changed? ==> r.user == u.(password := newPassword)
  {
    if oldPassword != u.password then WrongOldPassword
    else if newPassword != confirm then ConfirmMismatch
    else Changed(u.(password := newPassword))
  }

  /** A changed password is the one the next change must quote, and
      quoting the old one is then refused unless both are the same. */
  lemma PasswordChangeChains(u: User, oldPassword: string, newPassword: string)
    requires PasswordChange(u, oldPassword, newPassword, newPassword).Changed?
    ensures var v := PasswordChange(u, oldPassword, newPassword, newPassword).user;
      v.password == newPassword
      && (PasswordChange(v, oldPassword, oldPassword, oldPassword) == WrongOldPassword <==> oldPassword != newPassword)
  {
  }

  // ---------------------------------------------------------------------
  // The screen
  // ---------------------------------------------------------------------

  class LegacyHomeScreen {
    const session: UserSession
    var selectedMonth: YearMonth
    var currentBudget: int
    var newBudget: Option<int>

    constructor (session: UserSession, today: YearMonth)
      ensures this.session == session && selectedMonth == today
      ensures currentBudget == 0 && newBudget == None
    {
      this.session := session;
      selectedMonth := today;
      currentBudget := 0;
      newBudget := None;
    }

    /** The effect on `[user, selectedMonth]`: with rows, show the first
        row of the month; with none (or no user) keep the old value. */
    method RefreshDisplayedBudget()
      modifies this`currentBudget
      ensures session.user.Some? && |session.user.value.monthlyCategories| > 0 ==>
        currentBudget == DisplayedBudget(session.user.value.monthlyCategories, selectedMonth)
      ensures session.user.None? || |session.user.value.monthlyCategories| == 0 ==>
        currentBudget == old(currentBudget)
    {
      var user := session.user;
      if user.Some? && |user.value.monthlyCategories| > 0 {
        currentBudget := DisplayedBudget(user.value.monthlyCategories, selectedMonth);
      }
    }

    /** `handleSaveBudget`: the additive save; `saved` is the update and
        the user list reload succeeding. */
    method SaveBudget(saved: bool)
      modifies this`newBudget, session
      ensures old(session.user).None? || old(newBudget).None? || !saved ==>
        session.user == old(session.user) && newBudget == old(newBudget)
      ensures old(session.user).Some? && old(newBudget).Some? && saved ==>
        var u := old(session.user).value;
        session.user == Some(u.(monthlyCategories :=
          SaveAdditive(u.monthlyCategories, selectedMonth, old(newBudget).value)))
        && newBudget == None
      ensures old(session.user).Some? && old(newBudget).Some? && saved
              && UniqueIds(old(session.user).value.monthlyCategories) ==>
        DisplayedBudget(session.user.value.monthlyCategories, selectedMonth) ==
          DisplayedBudget(old(session.user).value.monthlyCategories, selectedMonth) + old(newBudget).value
    {
      var user := session.user;
      if user.None? || newBudget.None? {
        return;
      }
      var u := user.value;
      var updated := u.(monthlyCategories :=
        SaveAdditive(u.monthlyCategories, selectedMonth, newBudget.value));
      if !saved {
        return;
      }
      if UniqueIds(u.monthlyCategories) {
        SaveAdditiveDisplayed(u.monthlyCategories, selectedMonth, newBudget.value);
      }
      session.SetUser(Some(updated));
      newBudget := None;
    }

    /** `handleChangePassword`: nothing without a user; otherwise the
        checks' verdict, and the session takes the new password only when
        the checks pass and the update is `saved`. */
    method ChangePassword(oldPassword: string, newPassword: string, confirm: string, saved: bool)
      returns (result: Option<PasswordResult>)
      modifies session
      ensures old(session.user).None? ==> result == None && session.user == old(session.user)
      ensures old(session.user).Some? ==>
        result == Some(PasswordChange(old(session.user).value, oldPassword, newPassword, confirm))
      ensures session.user != old(session.user) ==>
        saved && result.Some? && result.value.Changed? && session.user == Some(result.value.user)
      ensures result.Some? && result.value.Changed? && saved ==>
        session.user == Some(result.value.user)
    {
      var user := session.user;
      if user.None? {
        return None;
      }
      var verdict := PasswordChange(user.value, oldPassword, newPassword, confirm);
      result := Some(verdict);
      if verdict.Changed? && saved {
        session.SetUser(Some(verdict.user));
      }
    }

    /** `handleUpdateInfo`: with a user, the merged record once `saved`. */
    method UpdateInfo(values: InfoValues, saved: bool)
      modifies session
      ensures old(session.user).Some? && saved ==>
        session.user == Some(UpdatedInfo(old(session.user).value, values))
      ensures old(session.user).None? || !saved ==> session.user == old(session.user)
    {
      var user := session.user;
      if user.Some? && saved {
        session.SetUser(Some(UpdatedInfo(user.value, values)));
      }
    }
  }
}
