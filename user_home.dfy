/** The end-user home screen (pages/user/Home.tsx): the month's remaining
    balance, saving the month's total, and allocating part of it to a
    catalog category, which also writes a history record to the log. */
module UserHome {
  import opened Common
  import opened Model
  import opened Budget
  import opened UserSlice

  /** The name shown for a category id the catalog does not know. */
  const UnknownCategoryName: string := "Không xác định"

  /** `categories.find(c => c.id === id)?.name || "Không xác định"`. */
  function CategoryName(categories: seq<UserCategory>, id: nat): (name: string)
    ensures name != ""
    ensures name == UnknownCategoryName || exists c :: c in categories && c.id == id && c.name == name
    ensures (forall c :: c in categories ==> c.id != id) ==> name == UnknownCategoryName
  {
    if |categories| == 0 then UnknownCategoryName
    else if categories[0].id == id then
      (if categories[0].name != "" then categories[0].name else UnknownCategoryName)
    else CategoryName(categories[1..], id)
  }

  /** The first catalog entry with the id decides: its name when that is
      non-empty, the fallback otherwise. */
  lemma {:induction false} CategoryNameFirst(categories: seq<UserCategory>, id: nat, i: nat)
    requires i < |categories| && categories[i].id == id
    requires forall j :: 0 <= j < i ==> categories[j].id != id
    ensures CategoryName(categories, id) ==
      if categories[i].name != "" then categories[i].name else UnknownCategoryName
  {
    if i > 0 {
      CategoryNameFirst(categories[1..], id, i - 1);
    }
  }

  /** The note of the history record an allocation writes; `monthLabel` is
      the selected month formatted as `MM/YYYY`. */
  function CreationNote(name: string, monthLabel: string): string {
    "Tạo danh mục \"" + name + "\" tháng " + monthLabel
  }

  /** `!selectedCategoryId`: no category chosen (`null` or the falsy id 0). */
  predicate NoCategory(id: Option<nat>) {
    id.None? || id.value == 0
  }

  class UserHomeScreen {
    /** The session store the screen reads `user` from and dispatches to. */
    const session: UserSession
    var selectedMonth: YearMonth
    var currentBudget: int
    /** The total-budget input; `None` is the empty field. */
    var newBudget: Option<int>
    /** The catalog loaded from `userCategories` when the screen mounts. */
    var categories: seq<UserCategory>
    var selectedCategoryId: Option<nat>
    /** The allocation amount input; `None` is the empty field. */
    var monthlyBudget: Option<int>

    constructor (session: UserSession, today: YearMonth, catalog: seq<UserCategory>)
      ensures this.session == session && selectedMonth == today
      ensures currentBudget == 0 && newBudget == None && monthlyBudget == None
      ensures categories == catalog && selectedCategoryId == None
    {
      this.session := session;
      selectedMonth := today;
      currentBudget := 0;
      newBudget := None;
      categories := catalog;
      selectedCategoryId := None;
      monthlyBudget := None;
    }

    /** The balance shown is the one the effect last derived. */
    ghost predicate BalanceFresh()
      reads this, session
    {
      currentBudget == Balance(session.user, selectedMonth)
    }

    /** The effect on `[user, selectedMonth]`: re-derive the balance. */
    method RefreshBalance()
      modifies this`currentBudget
      ensures currentBudget == Balance(session.user, selectedMonth)
      ensures BalanceFresh()
    {
      var user := session.user;
      if user.Some? && |user.value.monthlyCategories| > 0 {
        currentBudget := Remaining(user.value.monthlyCategories, selectedMonth);
      } else {
        currentBudget := 0;
      }
    }

    /** `handleSaveBudget`: with a user and a non-empty input, overwrite or
        create the month's total row. `saved` says the update and the
        refetch both succeeded; on failure nothing local changes. */
    method SaveBudget(saved: bool)
      modifies this`newBudget, session
      ensures old(session.user).None? || old(newBudget).None? || !saved ==>
        session.user == old(session.user) && newBudget == old(newBudget)
      ensures old(session.user).Some? && old(newBudget).Some? && saved ==>
        var u := old(session.user).value;
        session.user == Some(u.(monthlyCategories :=
          SetMonthlyTotal(u.monthlyCategories, selectedMonth, old(newBudget).value)))
        && newBudget == None
      ensures old(session.user).Some? && old(newBudget).Some? && saved
              && UniqueIds(old(session.user).value.monthlyCategories) ==>
        Balance(session.user, selectedMonth) ==
          old(newBudget).value - SubSpending(old(session.user).value.monthlyCategories, selectedMonth)
    {
      var user := session.user;
      if user.None? || newBudget.None? {
        return;
      }
      var u := user.value;
      var updated := u.(monthlyCategories :=
        SetMonthlyTotal(u.monthlyCategories, selectedMonth, newBudget.value));
      if !saved {
        return;
      }
      if UniqueIds(u.monthlyCategories) {
        SetTotalBalance(u.monthlyCategories, selectedMonth, newBudget.value);
      }
      session.SetUser(Some(updated));
      newBudget := None;
    }

    /** `handleAddMonthlyCategory`. Missing input or an amount above the
        displayed balance is rejected with nothing changed. Otherwise one
        row is appended; `userSaved` is the user update, `logSaved` the
        history record's post and `refetched` the user list reload. The
        record is returned when it reached the log; the session is updated
        only when all three succeeded. */
    method AddMonthlyCategory(userSaved: bool, logSaved: bool, refetched: bool,
                              now: int, createdAt: string, monthLabel: string)
      returns (record: Option<Transaction>)
      modifies this`selectedCategoryId, this`monthlyBudget, session
      ensures var rejected := old(session.user).None? || NoCategory(old(selectedCategoryId))
                || old(monthlyBudget).None? || old(monthlyBudget).value > currentBudget;
        rejected ==> (record == None && session.user == old(session.user)
          && selectedCategoryId == old(selectedCategoryId) && monthlyBudget == old(monthlyBudget))
      ensures var rejected := old(session.user).None? || NoCategory(old(selectedCategoryId))
                || old(monthlyBudget).None? || old(monthlyBudget).value > currentBudget;
        !rejected && userSaved && logSaved ==> record.Some?
      ensures record.Some? ==>
        var u := old(session.user).value;
        var amount := old(monthlyBudget).value;
        var name := CategoryName(categories, old(selectedCategoryId).value);
        userSaved && logSaved && amount <= currentBudget
        && record.value == Transaction(now, u.id, name, Some(amount),
             CreationNote(name, monthLabel), selectedMonth, createdAt)
      ensures session.user != old(session.user) ==> record.Some? && refetched
      ensures record.Some? && refetched ==>
        var u := old(session.user).value;
        var cid := old(selectedCategoryId).value;
        var amount := old(monthlyBudget).value;
        session.user == Some(u.(monthlyCategories :=
          AddSubRow(u.monthlyCategories, selectedMonth, cid, amount)))
        && selectedCategoryId == None && monthlyBudget == None
        && (cid != TotalCategoryId ==>
              Balance(session.user, selectedMonth) == Balance(old(session.user), selectedMonth) - amount)
      ensures !userSaved || !logSaved ==> record == None && session.user == old(session.user)
      ensures !(record.Some? && refetched) ==>
        selectedCategoryId == old(selectedCategoryId) && monthlyBudget == old(monthlyBudget)
    {
      record := None;
      var user := session.user;
      if user.None? || NoCategory(selectedCategoryId) || monthlyBudget.None? {
        return;
      }
      var amount := monthlyBudget.value;
      if amount > currentBudget {
        return;
      }
      var u := user.value;
      var cid := selectedCategoryId.value;
      var updated := u.(monthlyCategories :=
        AddSubRow(u.monthlyCategories, selectedMonth, cid, amount));
      if !userSaved {
        return;
      }
      var name := CategoryName(categories, cid);
      var history := Transaction(now, u.id, name, Some(amount),
        CreationNote(name, monthLabel), selectedMonth, createdAt);
      if !logSaved {
        return;
      }
      record := Some(history);
      if !refetched {
        return;
      }
      if cid != TotalCategoryId {
        AddSubRemaining(u.monthlyCategories, selectedMonth, cid, amount);
      }
      session.SetUser(Some(updated));
      selectedCategoryId := None;
      monthlyBudget := None;
    }

    /** `filteredMonthlyCategories`: the selected month's allocations. */
    function FilteredMonthlyCategories(): (r: seq<MonthlyRow>)
      reads this, session
      ensures session.user.None? ==> r == []
      ensures session.user.Some? ==>
        forall x :: x in r <==> x in session.user.value.monthlyCategories && IsSubOf(x, selectedMonth)
    {
      if session.user.None? then [] else SubRows(session.user.value.monthlyCategories, selectedMonth)
    }
  }
}
