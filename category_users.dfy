/** The monthly category screen (pages/user/CategoryUsers.tsx): the same
    balance and total-saving rules as the user home screen, but a category
    is named by free text, resolved by exact name in the shared catalog and
    created there when it is missing. No history record is written. */
module CategoryUsers {
  import opened Common
  import opened Model
  import opened Budget
  import opened UserSlice

  /** `categories.find(c => c.name === name)?.id || null`: the id of the
      first entry with exactly that name, where a falsy id 0 counts as
      absent. */
  function FindCategoryId(cats: seq<UserCategory>, name: string): (r: Option<nat>)
    ensures r.Some? ==> r.value != 0 && exists c :: c in cats && c.name == name && c.id == r.value
    ensures (forall c :: c in cats ==> c.name != name) ==> r.None?
  {
    if |cats| == 0 then None
    else if cats[0].name == name then (if cats[0].id != 0 then Some(cats[0].id) else None)
    else FindCategoryId(cats[1..], name)
  }

  /** The catalog after the lookup, and the category id the new row uses;
      `serverId` is the id the catalog service gives a created entry. */
  datatype Resolution = Resolution(catalog: seq<UserCategory>, categoryId: nat)

  /** Find the category by name, or add `{ name, limit: 0 }` at the end of
      the catalog under the server's id. */
  function Resolve(cats: seq<UserCategory>, name: string, serverId: nat): (r: Resolution)
    ensures |cats| <= |r.catalog| <= |cats| + 1 && r.catalog[..|cats|] == cats
    ensures exists c :: c in r.catalog && c.name == name && c.id == r.categoryId
  {
    match FindCategoryId(cats, name)
    case Some(id) => Resolution(cats, id)
    case None =>
      var created := UserCategory(serverId, name, 0);
      assert created in cats + [created];
      Resolution(cats + [created], serverId)
  }

  /** A name already catalogued under a non-zero id leaves the catalog as
      it is and uses that id, and nothing is created. */
  lemma ResolveExisting(cats: seq<UserCategory>, name: string, serverId: nat, i: nat)
    requires i < |cats| && cats[i].name == name && cats[i].id != 0
    requires forall j :: 0 <= j < i ==> cats[j].name != name
    ensures Resolve(cats, name, serverId) == Resolution(cats, cats[i].id)
  {
    FindFirst(cats, name, i);
  }

  lemma {:induction false} FindFirst(cats: seq<UserCategory>, name: string, i: nat)
    requires i < |cats| && cats[i].name == name && cats[i].id != 0
    requires forall j :: 0 <= j < i ==> cats[j].name != name
    ensures FindCategoryId(cats, name) == Some(cats[i].id)
  {
    if i > 0 {
      FindFirst(cats[1..], name, i - 1);
    }
  }

  /** A name not in the catalog grows it by exactly one entry, with that
      name, the server's id and limit 0; a second lookup then finds it
      without creating anything. */
  lemma ResolveCreates(cats: seq<UserCategory>, name: string, serverId: nat)
    requires forall c :: c in cats ==> c.name != name
    ensures var r := Resolve(cats, name, serverId);
      r.catalog == cats + [UserCategory(serverId, name, 0)] && r.categoryId == serverId
    ensures serverId != 0 ==>
      var again := Resolve(Resolve(cats, name, serverId).catalog, name, serverId + 1);
      again == Resolve(cats, name, serverId)
  {
    var grown := cats + [UserCategory(serverId, name, 0)];
    if serverId != 0 {
      ResolveExisting(grown, name, serverId + 1, |cats|);
    }
  }

  class CategoryUsersScreen {
    const session: UserSession
    var selectedMonth: YearMonth
    var currentBudget: int
    var newBudget: Option<int>
    var categories: seq<UserCategory>
    /** The free-text category name input. */
    var categoryName: string
    var monthlyBudget: Option<int>

    constructor (session: UserSession, today: YearMonth, catalog: seq<UserCategory>)
      ensures this.session == session && selectedMonth == today && currentBudget == 0
      ensures newBudget == None && categories == catalog && categoryName == "" && monthlyBudget == None
    {
      this.session := session;
      selectedMonth := today;
      currentBudget := 0;
      newBudget := None;
      categories := catalog;
      categoryName := "";
      monthlyBudget := None;
    }

    /** The effect on `[user, selectedMonth]`: re-derive the balance. */
    method RefreshBalance()
      modifies this`currentBudget
      ensures currentBudget == Balance(session.user, selectedMonth)
    {
      var user := session.user;
      if user.Some? && |user.value.monthlyCategories| > 0 {
        currentBudget := Remaining(user.value.monthlyCategories, selectedMonth);
      } else {
        currentBudget := 0;
      }
    }

    /** `handleSaveBudget`: with a user and a non-empty input, overwrite or
        create the month's total row; `saved` is the update and the user
        list reload succeeding. */
    method SaveBudget(saved: bool)
      modifies this`newBudget, session
      ensures old(session.user).None? || old(newBudget).None? || !saved ==>
        session.user == old(session.user) && newBudget == old(newBudget)
      ensures old(session.user).Some? && old(newBudget).Some? && saved ==>
        var u := old(session.user).value;
        session.user == Some(u.(monthlyCategories :=
          SetMonthlyTotal(u.monthlyCategories, selectedMonth, old(newBudget).value)))
        && newBudget == None
      ensures old(session.user).Some? && old(newBudget).Some? && saved
              && UniqueIds(old(session.user).value.monthlyCategories) ==>
        Balance(session.user, selectedMonth) ==
          old(newBudget).value - SubSpending(old(session.user).value.monthlyCategories, selectedMonth)
    {
      var user := session.user;
      if user.None? || newBudget.None? {
        return;
      }
      var u := user.value;
      var updated := u.(monthlyCategories :=
        SetMonthlyTotal(u.monthlyCategories, selectedMonth, newBudget.value));
      if !saved {
        return;
      }
      if UniqueIds(u.monthlyCategories) {
        SetTotalBalance(u.monthlyCategories, selectedMonth, newBudget.value);
      }
      session.SetUser(Some(updated));
      newBudget := None;
    }

    /** `handleAddMonthlyCategory`. No user, an empty name or amount, or
        an amount above the displayed balance is refused with nothing
        changed. Otherwise the name is resolved; a missing name is posted
        to the catalog first (`created`, answered with `serverId`), and a
        failed post stops there. The catalog keeps its new entry even when
        the later steps fail. Then one row is appended to the user and
        saved (`userSaved`), the user list is reloaded (`refetched`), and
        only then is the session updated and the inputs cleared. */
    method AddMonthlyCategory(created: bool, serverId: nat, userSaved: bool, refetched: bool)
      modifies this`categories, this`categoryName, this`monthlyBudget, session
      ensures var refused := old(session.user).None? || old(categoryName) == ""
                || old(monthlyBudget).None? || old(monthlyBudget).value > currentBudget
                || (FindCategoryId(old(categories), old(categoryName)).None? && !created);
        refused ==>
          categories == old(categories) && session.user == old(session.user)
          && categoryName == old(categoryName) && monthlyBudget == old(monthlyBudget)
      ensures var refused := old(session.user).None? || old(categoryName) == ""
                || old(monthlyBudget).None? || old(monthlyBudget).value > currentBudget
                || (FindCategoryId(old(categories), old(categoryName)).None? && !created);
        !refused ==>
          var res := Resolve(old(categories), old(categoryName), serverId);
          var u := old(session.user).value;
          var amount := old(monthlyBudget).value;
          categories == res.catalog
          && (userSaved && refetched ==>
                session.user == Some(u.(monthlyCategories :=
                  AddSubRow(u.monthlyCategories, selectedMonth, res.categoryId, amount)))
                && categoryName == "" && monthlyBudget == None
                && (res.categoryId != TotalCategoryId ==>
                      Balance(session.user, selectedMonth) == Balance(old(session.user), selectedMonth) - amount))
          && (!userSaved || !refetched ==>
                session.user == old(session.user)
                && categoryName == old(categoryName) && monthlyBudget == old(monthlyBudget))
    {
      var user := session.user;
      if user.None? || categoryName == "" || monthlyBudget.None? {
        return;
      }
      var amount := monthlyBudget.value;
      if amount > currentBudget {
        return;
      }
      var found := FindCategoryId(categories, categoryName);
      if found.None? && !created {
        return;
      }
      var res := Resolve(categories, categoryName, serverId);
      categories := res.catalog;
      var u := user.value;
      var updated := u.(monthlyCategories :=
        AddSubRow(u.monthlyCategories, selectedMonth, res.categoryId, amount));
      if !userSaved || !refetched {
        return;
      }
      if res.categoryId != TotalCategoryId {
        AddSubRemaining(u.monthlyCategories, selectedMonth, res.categoryId, amount);
      }
      session.SetUser(Some(updated));
      categoryName := "";
      monthlyBudget := None;
    }

    /** `filteredMonthlyCategories`: exactly the selected month's rows that
        are not its total. */
    function FilteredMonthlyCategories(): (r: seq<MonthlyRow>)
      reads this, session
      ensures session.user.None? ==> r == []
      ensures session.user.Some? ==>
        forall x :: x in r <==> x in session.user.value.monthlyCategories && IsSubOf(x, selectedMonth)
    {
      if session.user.None? then [] else SubRows(session.user.value.monthlyCategories, selectedMonth)
    }
  }
}
