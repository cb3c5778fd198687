/** The monthly budget engine shared by the end-user screens
    (user/Home.tsx, user/History.tsx, user/CategoryUsers.tsx): how a user's
    `monthlyCategories` are read as a month's total and sub-allocations, and
    the row updates that "set total", "add sub-category" and the transaction
    log apply to them. */
module Budget {
  import opened Common
  import opened Model

  // ---------------------------------------------------------------------
  // Reading a month
  // ---------------------------------------------------------------------

  /** The row is the total-budget row of month `m`. */
  predicate IsTotalOf(r: MonthlyRow, m: YearMonth) {
    r.month == m && r.categories.categoryId == TotalCategoryId
  }

  /** The row is a sub-category allocation of month `m`. */
  predicate IsSubOf(r: MonthlyRow, m: YearMonth) {
    r.month == m && r.categories.categoryId != TotalCategoryId
  }

  function SubOf(m: YearMonth): MonthlyRow -> bool {
    r => IsSubOf(r, m)
  }

  function InMonth(m: YearMonth): MonthlyRow -> bool {
    (r: MonthlyRow) => r.month == m
  }

  /** `find` of the month's total row. */
  function FindTotal(rows: seq<MonthlyRow>, m: YearMonth): (r: Option<MonthlyRow>)
    ensures r.Some? ==> r.value in rows && IsTotalOf(r.value, m)
    ensures r.None? <==> forall i :: 0 <= i < |rows| ==> !IsTotalOf(rows[i], m)
  {
    if |rows| == 0 then None
    else if IsTotalOf(rows[0], m) then Some(rows[0])
    else FindTotal(rows[1..], m)
  }

  /** The row `find` returns is the first total row of the month. */
  lemma {:induction false} FindTotalAt(rows: seq<MonthlyRow>, m: YearMonth, i: nat)
    requires i < |rows| && IsTotalOf(rows[i], m)
    requires forall j :: 0 <= j < i ==> !IsTotalOf(rows[j], m)
    ensures FindTotal(rows, m) == Some(rows[i])
  {
    if i > 0 {
      FindTotalAt(rows[1..], m, i - 1);
    }
  }

  /** The budget of the month's total row, 0 when there is none. */
  function TotalBudget(rows: seq<MonthlyRow>, m: YearMonth): int {
    match FindTotal(rows, m)
    case Some(t) => t.categories.budget
    case None => 0
  }

  /** `filteredMonthlyCategories`: the month's sub-category rows, in order. */
  function SubRows(rows: seq<MonthlyRow>, m: YearMonth): (r: seq<MonthlyRow>)
    ensures forall x :: x in r <==> x in rows && IsSubOf(x, m)
  {
    Filter(rows, SubOf(m))
  }

  /** `reduce((sum, m) => sum + m.categories.budget, 0)`. */
  function SumBudgets(rs: seq<MonthlyRow>): int {
    if |rs| == 0 then 0 else rs[0].categories.budget + SumBudgets(rs[1..])
  }

  lemma {:induction false} SumBudgetsConcat(a: seq<MonthlyRow>, b: seq<MonthlyRow>)
    ensures SumBudgets(a + b) == SumBudgets(a) + SumBudgets(b)
  {
    if |a| == 0 {
      assert a + b == b;
    } else {
      assert (a + b)[1..] == a[1..] + b;
      SumBudgetsConcat(a[1..], b);
    }
  }

  /** The month's sub-category allocations added up. */
  function SubSpending(rows: seq<MonthlyRow>, m: YearMonth): int {
    SumBudgets(SubRows(rows, m))
  }

  /** The remaining balance of a month: its total minus its allocations. */
  function Remaining(rows: seq<MonthlyRow>, m: YearMonth): int {
    TotalBudget(rows, m) - SubSpending(rows, m)
  }

  /** What the balance effect of the end-user screens displays: 0 without a
      signed-in user or without rows, otherwise the remaining balance. */
  function Balance(user: Option<User>, m: YearMonth): (b: int)
    ensures user.None? ==> b == 0
    ensures user.Some? ==> b == Remaining(user.value.monthlyCategories, m)
  {
    if user.None? || |user.value.monthlyCategories| == 0 then 0
    else Remaining(user.value.monthlyCategories, m)
  }

  /** A month without rows has balance 0. */
  lemma {:induction false} RemainingEmptyMonth(rows: seq<MonthlyRow>, m: YearMonth)
    requires forall i :: 0 <= i < |rows| ==> rows[i].month != m
    ensures Remaining(rows, m) == 0
  {
    FilterNone(rows, SubOf(m));
  }

  /** Rows of other months are ignored: the balance depends on the month's
      own rows only. */
  lemma {:induction false} RemainingMonthOnly(rows: seq<MonthlyRow>, m: YearMonth)
    ensures Remaining(rows, m) == Remaining(Filter(rows, InMonth(m)), m)
  {
    FindTotalMonthOnly(rows, m);
    SubRowsMonthOnly(rows, m);
  }

  lemma {:induction false} FindTotalMonthOnly(rows: seq<MonthlyRow>, m: YearMonth)
    ensures FindTotal(rows, m) == FindTotal(Filter(rows, InMonth(m)), m)
  {
    if |rows| > 0 {
      FindTotalMonthOnly(rows[1..], m);
      var rest := Filter(rows[1..], InMonth(m));
      if rows[0].month == m {
        assert Filter(rows, InMonth(m)) == [rows[0]] + rest;
        assert ([rows[0]] + rest)[1..] == rest;
      } else {
        assert Filter(rows, InMonth(m)) == rest;
      }
    }
  }

  lemma {:induction false} SubRowsMonthOnly(rows: seq<MonthlyRow>, m: YearMonth)
    ensures SubRows(rows, m) == SubRows(Filter(rows, InMonth(m)), m)
  {
    if |rows| > 0 {
      SubRowsMonthOnly(rows[1..], m);
      var head := if InMonth(m)(rows[0]) then [rows[0]] else [];
      FilterConcat(head, Filter(rows[1..], InMonth(m)), SubOf(m));
    }
  }

  /** Appending a row of another month leaves the balance alone. */
  lemma RemainingOtherMonthAppend(rows: seq<MonthlyRow>, m: YearMonth, x: MonthlyRow)
    requires x.month != m
    ensures Remaining(rows + [x], m) == Remaining(rows, m)
  {
    FindTotalAppend(rows, m, x);
    SubSpendingAppend(rows, m, x);
  }

  lemma SubSpendingAppend(rows: seq<MonthlyRow>, m: YearMonth, x: MonthlyRow)
    ensures SubSpending(rows + [x], m) ==
      SubSpending(rows, m) + if IsSubOf(x, m) then x.categories.budget else 0
  {
    FilterConcat(rows, [x], SubOf(m));
    var tail := Filter([x], SubOf(m));
    assert [x][1..] == [];
    assert tail == if IsSubOf(x, m) then [x] else [];
    SumBudgetsConcat(SubRows(rows, m), tail);
    assert SumBudgets(tail) == if IsSubOf(x, m) then x.categories.budget else 0;
  }

  lemma {:induction false} FindTotalAppend(rows: seq<MonthlyRow>, m: YearMonth, x: MonthlyRow)
    ensures FindTotal(rows + [x], m) ==
      if FindTotal(rows, m).Some? then FindTotal(rows, m)
      else if IsTotalOf(x, m) then Some(x) else None
  {
    if |rows| > 0 {
      assert (rows + [x])[1..] == rows[1..] + [x];
      FindTotalAppend(rows[1..], m, x);
    }
  }

  // ---------------------------------------------------------------------
  // Ids
  // ---------------------------------------------------------------------

  function Ids(rows: seq<MonthlyRow>): (r: seq<nat>)
    ensures |r| == |rows|
    ensures forall i :: 0 <= i < |rows| ==> r[i] == rows[i].id
  {
    seq(|rows|, i requires 0 <= i < |rows| => rows[i].id)
  }

  /** The id of a new monthly row: one more than the largest, 1 for none. */
  function NextRowId(rows: seq<MonthlyRow>): (r: nat)
    ensures forall i :: 0 <= i < |rows| ==> rows[i].id < r
    ensures |rows| == 0 ==> r == 1
    ensures |rows| > 0 ==> exists i :: 0 <= i < |rows| && rows[i].id == r - 1
  {
    var ids := Ids(rows);
    var n := NextId(ids);
    assert |rows| > 0 ==> exists i :: 0 <= i < |ids| && ids[i] == n - 1;
    n
  }

  predicate UniqueIds(rows: seq<MonthlyRow>) {
    forall i, j :: 0 <= i < j < |rows| ==> rows[i].id != rows[j].id
  }

  /** `categories.id` mirrors the row id. */
  predicate Mirrored(rows: seq<MonthlyRow>) {
    forall i :: 0 <= i < |rows| ==> rows[i].categories.id == rows[i].id
  }

  predicate WellFormed(rows: seq<MonthlyRow>) {
    UniqueIds(rows) && Mirrored(rows)
  }

  /** A row as the screens create it: id and `categories.id` both the next id. */
  function NewRow(rows: seq<MonthlyRow>, m: YearMonth, categoryId: nat, amount: int): MonthlyRow {
    var n := NextRowId(rows);
    MonthlyRow(n, m, CategoryBudget(n, categoryId, amount))
  }

  /** Appending a freshly numbered row keeps the ids unique and mirrored. */
  lemma AppendNewRowWellFormed(rows: seq<MonthlyRow>, m: YearMonth, categoryId: nat, amount: int)
    requires WellFormed(rows)
    ensures WellFormed(rows + [NewRow(rows, m, categoryId, amount)])
  {
  }

  // ---------------------------------------------------------------------
  // Updating rows by id
  // ---------------------------------------------------------------------

  function WithBudget(r: MonthlyRow, b: int): MonthlyRow {
    r.(categories := r.categories.(budget := b))
  }

  /** Two rows that agree on everything but the budget. */
  predicate SameKey(a: MonthlyRow, b: MonthlyRow) {
    a.id == b.id && a.month == b.month
    && a.categories.id == b.categories.id
    && a.categories.categoryId == b.categories.categoryId
  }

  /** An update that only touches the budget. */
  ghost predicate BudgetOnly(f: MonthlyRow -> MonthlyRow) {
    forall r :: SameKey(f(r), r)
  }

  /** The update `{ ...item, categories: { ...item.categories, budget: b } }`. */
  function SetTo(b: int): MonthlyRow -> MonthlyRow {
    r => WithBudget(r, b)
  }

  /** The update `budget: item.categories.budget + delta`. */
  function AddTo(delta: int): MonthlyRow -> MonthlyRow {
    (r: MonthlyRow) => WithBudget(r, r.categories.budget + delta)
  }

  lemma BudgetOnlyUpdates(b: int)
    ensures BudgetOnly(SetTo(b)) && BudgetOnly(AddTo(b))
  {
  }

  /** `rows.map(item => item.id === id ? f(item) : item)`. */
  function MapById(rows: seq<MonthlyRow>, id: nat, f: MonthlyRow -> MonthlyRow): (r: seq<MonthlyRow>)
    ensures |r| == |rows|
    ensures forall i :: 0 <= i < |rows| ==> r[i] == if rows[i].id == id then f(rows[i]) else rows[i]
  {
    seq(|rows|, i requires 0 <= i < |rows| => if rows[i].id == id then f(rows[i]) else rows[i])
  }

  lemma MapByIdTail(rows: seq<MonthlyRow>, id: nat, f: MonthlyRow -> MonthlyRow)
    requires |rows| > 0
    ensures MapById(rows, id, f)[1..] == MapById(rows[1..], id, f)
  {
  }

  /** A budget-only update does not move the month's total row. */
  lemma {:induction false} MapByIdFindTotal(rows: seq<MonthlyRow>, m: YearMonth, id: nat, f: MonthlyRow -> MonthlyRow)
    requires BudgetOnly(f)
    ensures FindTotal(MapById(rows, id, f), m) ==
      match FindTotal(rows, m)
      case Some(t) => Some(if t.id == id then f(t) else t)
      case None => None
  {
    if |rows| > 0 {
      assert SameKey(f(rows[0]), rows[0]);
      MapByIdTail(rows, id, f);
      MapByIdFindTotal(rows[1..], m, id, f);
    }
  }

  /** A budget-only update of rows that are not sub-rows of `m` leaves the
      sub-rows of `m` alone. */
  lemma {:induction false} MapByIdSubRows(rows: seq<MonthlyRow>, m: YearMonth, id: nat, f: MonthlyRow -> MonthlyRow)
    requires BudgetOnly(f)
    requires forall i :: 0 <= i < |rows| && rows[i].id == id ==> !IsSubOf(rows[i], m)
    ensures SubRows(MapById(rows, id, f), m) == SubRows(rows, m)
  {
    if |rows| > 0 {
      assert SameKey(f(rows[0]), rows[0]);
      MapByIdTail(rows, id, f);
      MapByIdSubRows(rows[1..], m, id, f);
    }
  }

  lemma MapByIdWellFormed(rows: seq<MonthlyRow>, id: nat, f: MonthlyRow -> MonthlyRow)
    requires BudgetOnly(f) && WellFormed(rows)
    ensures WellFormed(MapById(rows, id, f))
  {
    var r := MapById(rows, id, f);
    forall i | 0 <= i < |rows| ensures SameKey(r[i], rows[i]) {
      assert SameKey(f(rows[i]), rows[i]);
    }
  }

  /** With unique ids, only the row that has the id is touched. */
  lemma MapByIdOnly(rows: seq<MonthlyRow>, i: nat, f: MonthlyRow -> MonthlyRow)
    requires UniqueIds(rows) && i < |rows|
    ensures var r := MapById(rows, rows[i].id, f);
      r[i] == f(rows[i]) && forall j :: 0 <= j < |rows| && j != i ==> r[j] == rows[j]
  {
  }

  /** The unique row holding a total's id is that total itself. */
  lemma UniqueTotal(rows: seq<MonthlyRow>, m: YearMonth, t: MonthlyRow)
    requires UniqueIds(rows) && t in rows && IsTotalOf(t, m)
    ensures forall i :: 0 <= i < |rows| && rows[i].id == t.id ==> rows[i] == t
  {
  }

  // ---------------------------------------------------------------------
  // Set monthly total (handleSaveBudget of user/Home.tsx and CategoryUsers.tsx)
  // ---------------------------------------------------------------------

  /** Overwrite the month's total row, or append a new total row. */
  function SetMonthlyTotal(rows: seq<MonthlyRow>, m: YearMonth, amount: int): seq<MonthlyRow> {
    match FindTotal(rows, m)
    case Some(t) => MapById(rows, t.id, SetTo(amount))
    case None => rows + [NewRow(rows, m, TotalCategoryId, amount)]
  }

  /** With a total row at index `i` (the first of the month), saving
      overwrites its budget and nothing else. */
  lemma SetTotalOverwrites(rows: seq<MonthlyRow>, m: YearMonth, amount: int, i: nat)
    requires UniqueIds(rows)
    requires i < |rows| && IsTotalOf(rows[i], m)
    requires forall j :: 0 <= j < i ==> !IsTotalOf(rows[j], m)
    ensures var r := SetMonthlyTotal(rows, m, amount);
      |r| == |rows| && r[i] == WithBudget(rows[i], amount)
      && forall j :: 0 <= j < |rows| && j != i ==> r[j] == rows[j]
  {
    FindTotalAt(rows, m, i);
    MapByIdOnly(rows, i, SetTo(amount));
  }

  /** Without a total row, saving appends exactly one total row whose id,
      `categories.id` and `categoryId` are the next id, the next id and 1. */
  lemma SetTotalAppends(rows: seq<MonthlyRow>, m: YearMonth, amount: int)
    requires forall i :: 0 <= i < |rows| ==> !IsTotalOf(rows[i], m)
    ensures var r := SetMonthlyTotal(rows, m, amount);
      var n := NextRowId(rows);
      r == rows + [MonthlyRow(n, m, CategoryBudget(n, 1, amount))]
      && (forall i :: 0 <= i < |rows| ==> rows[i].id < n)
      && (|rows| == 0 ==> n == 1)
  {
  }

  /** After saving, the month's total is the amount saved and its
      allocations are what they were. */
  lemma SetTotalBalance(rows: seq<MonthlyRow>, m: YearMonth, amount: int)
    requires UniqueIds(rows)
    ensures TotalBudget(SetMonthlyTotal(rows, m, amount), m) == amount
    ensures SubSpending(SetMonthlyTotal(rows, m, amount), m) == SubSpending(rows, m)
    ensures Remaining(SetMonthlyTotal(rows, m, amount), m) == amount - SubSpending(rows, m)
  {
    var row := NewRow(rows, m, TotalCategoryId, amount);
    match FindTotal(rows, m)
    case Some(t) =>
      BudgetOnlyUpdates(amount);
      MapByIdFindTotal(rows, m, t.id, SetTo(amount));
      UniqueTotal(rows, m, t);
      MapByIdSubRows(rows, m, t.id, SetTo(amount));
    case None =>
      FindTotalAppend(rows, m, row);
      SubSpendingAppend(rows, m, row);
  }

  /** Saving touches no other month. */
  lemma SetTotalOtherMonths(rows: seq<MonthlyRow>, m: YearMonth, amount: int, m': YearMonth)
    requires UniqueIds(rows) && m' != m
    ensures Remaining(SetMonthlyTotal(rows, m, amount), m') == Remaining(rows, m')
  {
    var row := NewRow(rows, m, TotalCategoryId, amount);
    match FindTotal(rows, m)
    case Some(t) =>
      BudgetOnlyUpdates(amount);
      MapByIdFindTotal(rows, m', t.id, SetTo(amount));
      UniqueTotal(rows, m, t);
      MapByIdSubRows(rows, m', t.id, SetTo(amount));
    case None =>
      RemainingOtherMonthAppend(rows, m', row);
  }

  /** Saving the same total twice is saving it once. */
  lemma SetTotalIdempotent(rows: seq<MonthlyRow>, m: YearMonth, amount: int)
    ensures SetMonthlyTotal(SetMonthlyTotal(rows, m, amount), m, amount) == SetMonthlyTotal(rows, m, amount)
  {
    BudgetOnlyUpdates(amount);
    var once := SetMonthlyTotal(rows, m, amount);
    match FindTotal(rows, m)
    case Some(t) =>
      MapByIdFindTotal(rows, m, t.id, SetTo(amount));
      assert FindTotal(once, m) == Some(WithBudget(t, amount));
      assert MapById(once, t.id, SetTo(amount)) == once;
    case None =>
      var row := NewRow(rows, m, TotalCategoryId, amount);
      FindTotalAppend(rows, m, row);
      assert MapById(once, row.id, SetTo(amount)) == once;
  }

  lemma SetTotalWellFormed(rows: seq<MonthlyRow>, m: YearMonth, amount: int)
    requires WellFormed(rows)
    ensures WellFormed(SetMonthlyTotal(rows, m, amount))
  {
    BudgetOnlyUpdates(amount);
    match FindTotal(rows, m)
    case Some(t) => MapByIdWellFormed(rows, t.id, SetTo(amount));
    case None => AppendNewRowWellFormed(rows, m, TotalCategoryId, amount);
  }

  // ---------------------------------------------------------------------
  // Add sub-category (handleAddMonthlyCategory of user/Home.tsx and CategoryUsers.tsx)
  // ---------------------------------------------------------------------

  /** Append one allocation row; existing rows are never merged. */
  function AddSubRow(rows: seq<MonthlyRow>, m: YearMonth, categoryId: nat, amount: int): (r: seq<MonthlyRow>)
    ensures |r| == |rows| + 1 && r[..|rows|] == rows
    ensures var n := NextRowId(rows);
      r[|rows|] == MonthlyRow(n, m, CategoryBudget(n, categoryId, amount))
      && forall i :: 0 <= i < |rows| ==> rows[i].id < n
  {
    rows + [NewRow(rows, m, categoryId, amount)]
  }

  /** An allocation of a real category lowers the month's balance by exactly
      its amount, even when the category already has an allocation. */
  lemma AddSubRemaining(rows: seq<MonthlyRow>, m: YearMonth, categoryId: nat, amount: int)
    requires categoryId != TotalCategoryId
    ensures Remaining(AddSubRow(rows, m, categoryId, amount), m) == Remaining(rows, m) - amount
  {
    var row := NewRow(rows, m, categoryId, amount);
    FindTotalAppend(rows, m, row);
    SubSpendingAppend(rows, m, row);
  }

  /** An "allocation" whose category id is 1 is read as a total row: it
      spends nothing when the month already has a total, and becomes the
      total when it has none. */
  lemma AddWithTotalId(rows: seq<MonthlyRow>, m: YearMonth, amount: int)
    ensures FindTotal(rows, m).Some? ==>
      Remaining(AddSubRow(rows, m, TotalCategoryId, amount), m) == Remaining(rows, m)
    ensures FindTotal(rows, m).None? ==>
      Remaining(AddSubRow(rows, m, TotalCategoryId, amount), m) == amount - SubSpending(rows, m)
  {
    var row := NewRow(rows, m, TotalCategoryId, amount);
    FindTotalAppend(rows, m, row);
    SubSpendingAppend(rows, m, row);
  }

  lemma AddSubWellFormed(rows: seq<MonthlyRow>, m: YearMonth, categoryId: nat, amount: int)
    requires WellFormed(rows)
    ensures WellFormed(AddSubRow(rows, m, categoryId, amount))
  {
    AppendNewRowWellFormed(rows, m, categoryId, amount);
  }

  // ---------------------------------------------------------------------
  // Transactions against the total row (user/History.tsx)
  // ---------------------------------------------------------------------

  /** Recording a spending decrements the month's total row, if any. */
  function DebitTotal(rows: seq<MonthlyRow>, m: YearMonth, amount: int): seq<MonthlyRow> {
    match FindTotal(rows, m)
    case Some(t) => MapById(rows, t.id, AddTo(-amount))
    case None => rows
  }

  /** Deleting a spending adds its amount back to the month's total row, if any. */
  function CreditTotal(rows: seq<MonthlyRow>, m: YearMonth, amount: int): seq<MonthlyRow> {
    match FindTotal(rows, m)
    case Some(t) => MapById(rows, t.id, AddTo(amount))
    case None => rows
  }

  /** With a total row, a debit lowers the total and the balance by the
      amount and touches no other row; without one it changes nothing. */
  lemma DebitBalance(rows: seq<MonthlyRow>, m: YearMonth, amount: int)
    requires UniqueIds(rows)
    ensures FindTotal(rows, m).None? ==> DebitTotal(rows, m, amount) == rows
    ensures FindTotal(rows, m).Some? ==>
      TotalBudget(DebitTotal(rows, m, amount), m) == TotalBudget(rows, m) - amount
      && Remaining(DebitTotal(rows, m, amount), m) == Remaining(rows, m) - amount
  {
    if t :| FindTotal(rows, m) == Some(t) {
      BudgetOnlyUpdates(-amount);
      MapByIdFindTotal(rows, m, t.id, AddTo(-amount));
      UniqueTotal(rows, m, t);
      MapByIdSubRows(rows, m, t.id, AddTo(-amount));
    }
  }

  /** With a total row, a credit raises the total and the balance by the amount. */
  lemma CreditBalance(rows: seq<MonthlyRow>, m: YearMonth, amount: int)
    requires UniqueIds(rows)
    ensures FindTotal(rows, m).None? ==> CreditTotal(rows, m, amount) == rows
    ensures FindTotal(rows, m).Some? ==>
      TotalBudget(CreditTotal(rows, m, amount), m) == TotalBudget(rows, m) + amount
      && Remaining(CreditTotal(rows, m, amount), m) == Remaining(rows, m) + amount
  {
    if t :| FindTotal(rows, m) == Some(t) {
      BudgetOnlyUpdates(amount);
      MapByIdFindTotal(rows, m, t.id, AddTo(amount));
      UniqueTotal(rows, m, t);
      MapByIdSubRows(rows, m, t.id, AddTo(amount));
    }
  }

  /** With unique ids and the month's first total row at index `i`, a
      debit keeps the length, lowers that row's budget by the amount and
      leaves every other row as it was. */
  lemma DebitTotalAt(rows: seq<MonthlyRow>, m: YearMonth, amount: int, i: nat)
    requires UniqueIds(rows)
    requires i < |rows| && IsTotalOf(rows[i], m)
    requires forall j :: 0 <= j < i ==> !IsTotalOf(rows[j], m)
    ensures var r := DebitTotal(rows, m, amount);
      |r| == |rows| && r[i] == WithBudget(rows[i], rows[i].categories.budget - amount)
      && forall j :: 0 <= j < |rows| && j != i ==> r[j] == rows[j]
  {
    FindTotalAt(rows, m, i);
    MapByIdOnly(rows, i, AddTo(-amount));
  }

  /** The refund's counterpart: only the month's first total row changes,
      its budget raised by the amount. */
  lemma CreditTotalAt(rows: seq<MonthlyRow>, m: YearMonth, amount: int, i: nat)
    requires UniqueIds(rows)
    requires i < |rows| && IsTotalOf(rows[i], m)
    requires forall j :: 0 <= j < i ==> !IsTotalOf(rows[j], m)
    ensures var r := CreditTotal(rows, m, amount);
      |r| == |rows| && r[i] == WithBudget(rows[i], rows[i].categories.budget + amount)
      && forall j :: 0 <= j < |rows| && j != i ==> r[j] == rows[j]
  {
    FindTotalAt(rows, m, i);
    MapByIdOnly(rows, i, AddTo(amount));
  }

  /** Recording and then deleting the same amount restores the rows. */
  lemma CreditUndoesDebit(rows: seq<MonthlyRow>, m: YearMonth, amount: int)
    ensures CreditTotal(DebitTotal(rows, m, amount), m, amount) == rows
  {
    if t :| FindTotal(rows, m) == Some(t) {
      BudgetOnlyUpdates(-amount);
      var once := DebitTotal(rows, m, amount);
      MapByIdFindTotal(rows, m, t.id, AddTo(-amount));
      assert FindTotal(once, m).Some? && FindTotal(once, m).value.id == t.id;
      assert MapById(once, t.id, AddTo(amount)) == rows;
    }
  }

  lemma DebitCreditWellFormed(rows: seq<MonthlyRow>, m: YearMonth, amount: int)
    requires WellFormed(rows)
    ensures WellFormed(DebitTotal(rows, m, amount)) && WellFormed(CreditTotal(rows, m, amount))
  {
    BudgetOnlyUpdates(amount);
    BudgetOnlyUpdates(-amount);
    if t :| FindTotal(rows, m) == Some(t) {
      MapByIdWellFormed(rows, t.id, AddTo(amount));
      MapByIdWellFormed(rows, t.id, AddTo(-amount));
    }
  }
}
