/** The records the application stores in its REST collections. */
module Model {
  import opened Common

  /** The year-month a date is compared on (`format("YYYY-MM")`). */
  datatype YearMonth = YearMonth(year: int, month: int)

  /** The embedded `categories` record of a monthly row: its own id (which
      mirrors the row id), the catalog category it budgets, and the amount. */
  datatype CategoryBudget = CategoryBudget(id: nat, categoryId: nat, budget: int)

  /** One entry of a user's `monthlyCategories`: the month's total row when
      `categories.categoryId == 1`, otherwise a sub-category allocation. */
  datatype MonthlyRow = MonthlyRow(id: nat, month: YearMonth, categories: CategoryBudget)

  datatype User = User(
    id: nat,
    fullname: string,
    email: string,
    password: string,
    phone: string,
    gender: bool,
    status: bool,
    monthlyCategories: seq<MonthlyRow>)

  /** An entry of the shared end-user catalog `userCategories`. */
  datatype UserCategory = UserCategory(id: nat, name: string, limit: int)

  /** An entry of the administrator's catalog `category`. */
  datatype AdminCategory = AdminCategory(id: nat, name: string, imageUrl: string, status: bool)

  /** An administrator record; the field name `usename` is the stored one. */
  datatype Admin = Admin(usename: string, password: string)

  /** An entry of the `transactions` log. The amount is optional because
      records read back from the collection may lack it. */
  datatype Transaction = Transaction(
    id: int,
    userId: nat,
    category: string,
    budget: Option<int>,
    note: string,
    month: YearMonth,
    createdAt: string)

  /** The `categoryId` that marks a month's total-budget row. */
  const TotalCategoryId: nat := 1
}
