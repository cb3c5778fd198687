# Monthly budget engine — a Dafny model

This project models the budgeting client of a personal-finance web app. A
signed-in user keeps a list of *monthly rows* (`monthlyCategories`). Each row
belongs to one month and carries a category id and an amount. The row with
category id 1 is the month's **total**. Every other row is an **allocation**
to a catalog category. The screens derive the month's remaining balance (the
total minus the allocations), overwrite or create the total, and append
allocations that the balance can cover. On the history screen, recording a
spending entry debits the total and deleting one refunds it. The log is
listed filtered, sorted and five to a page. An older home screen saves the
total *additively* into the month's first row; it is modelled separately so
that its divergence can be stated.

Smaller rules modelled with it:
- the two sign-up forms (email pattern, password rules, duplicate check, id
  allocation);
- sign-in and admin login credential matching;
- the admin catalog and user lists (search, status toggle, category add);
- the admin sidebar's selected key;
- the session slice.

Modelling choices:
- **Values.** Months are `YearMonth(year, month)` and money is `int`. Ids are
  `nat`, except transaction ids, which are `int` timestamps. Strings are
  `seq<char>`. A numeric or optional form field is an `Option` (`None` is the
  empty field).
- **Screens.** Each screen is a class whose fields are the component's
  state. The session store is a `UserSession` object the screens share.
  Each event handler is a method.
- **Requests.** Every request a handler makes is a `bool` parameter saying
  whether it succeeded. On failure the local state is exactly what the
  handler had done before that request.
- **Derived data.** The balance effect, the filters, the sort and the page
  are functions. Each screen's `RefreshBalance` method stores the derived
  balance.

Modules:
- `Common`: `Option`, the `max+1` id rule and a generic filter.
- `Text`: ASCII lower-casing and substring search.
- `Model`: the records.
- `Budget`: the balance and the row updates shared by three screens.
- `UserSlice`: the session.
- Screens: `UserHome`, `History`, `CategoryUsers`, `LegacyHome`.
- Identity: `EmailRule`, `Registration`, `UserSignUp`, `SignUp`, `SignIn`,
  `AdminLogin`.
- Admin: `AdminCategoryPage`, `AdminUsersPage`, `SidebarAdmin`.

## Model

| member | source | states |
|---|---|---|
| UserSlice.UserSession.constructor | client/src/features/userSlice.tsx:28-30 | the session starts with no user |
| UserSlice.UserSession.SetUser | client/src/features/userSlice.tsx:36-38 | afterwards the session user is exactly the payload, so `SetUser(None)` acts as `ClearUser` |
| UserSlice.UserSession.ClearUser | client/src/features/userSlice.tsx:39-41 | afterwards there is no user, whatever the state was before, so clearing twice equals clearing once |
| Common.NextId | client/src/pages/user/Home.tsx:133-137 | the allocated id is above every existing id; it is 1 for an empty list; otherwise it is one more than an existing id (the maximum) |
| Common.Filter | client/src/pages/user/History.tsx:253-259 | an element is in the result iff it is in the input and satisfies the predicate; the result is no longer than the input |
| Text.Lower | client/src/pages/admin/Category.tsx:42 | lower-casing keeps the length, turns each upper-case ASCII letter into its lower-case letter (code point + 32) and keeps every other character |
| Text.LowerIdempotent | client/src/pages/admin/Category.tsx:42 | lower-casing twice equals lower-casing once |
| Text.Contains | client/src/pages/admin/Category.tsx:42 | `includes` holds iff the needle occurs at some position |
| Text.ContainsEmpty | client/src/pages/admin/Users.tsx:47-51 | every string includes the empty string, which is why an empty search keeps everything |
| Text.IncludesOwnCaseVariant | client/src/pages/user/History.tsx:257-258 | a case-insensitive search finds any text whose lower-cased form equals the term's |
| Budget.FindTotal | client/src/pages/user/Home.tsx:89-91 | the row found is in the list and is a total row (category 1) of the month; it is None iff the month has no total row |
| Budget.FindTotalAt | client/src/pages/user/Home.tsx:89-91 | the first total row of the month is the one found |
| Budget.SubRows | client/src/pages/user/Home.tsx:93-95 | a row is kept iff it is in the list, in the month and not a total row |
| Budget.SumBudgetsConcat | client/src/pages/user/Home.tsx:93-95 | the `reduce` sum of a concatenation is the sum of the parts |
| Budget.Balance | client/src/pages/user/Home.tsx:82-101 | without a user or with no rows the balance is 0; otherwise it is the first total row's budget (0 if none) minus the sum of the month's other rows |
| Budget.RemainingEmptyMonth | client/src/pages/user/Home.tsx:89-97 | a month with no rows has remaining balance 0 |
| Budget.RemainingMonthOnly | client/src/pages/user/Home.tsx:84-87 | the balance depends only on the selected month's rows: rows of other months are ignored |
| Budget.RemainingOtherMonthAppend | client/src/pages/user/Home.tsx:84-87 | appending a row of another month leaves the balance unchanged |
| Budget.SubSpendingAppend | client/src/pages/user/Home.tsx:93-95 | appending an allocation of the month raises its spending by exactly that amount, and one of another month changes nothing |
| Budget.FindTotalAppend | client/src/pages/user/Home.tsx:89-91 | appending a row keeps an existing total row the one found |
| Budget.NextRowId | client/src/pages/user/Home.tsx:133-137 | the new row id is above every row id; it is 1 for an empty list |
| Budget.AppendNewRowWellFormed | client/src/pages/user/Home.tsx:133-147 | appending a new row with the next id keeps row ids unique and each row's embedded id equal to its own |
| Budget.BudgetOnlyUpdates | client/src/pages/user/Home.tsx:122-126 | the set and add updates change the row's budget and nothing else |
| Budget.MapByIdFindTotal | client/src/pages/user/Home.tsx:122-126 | a budget-only update by id leaves the month's total row where it was, updated when it carries that id |
| Budget.MapByIdSubRows | client/src/pages/user/Home.tsx:122-126 | a budget-only update by an id that no allocation of the month carries leaves the month's allocations as they were |
| Budget.MapByIdWellFormed | client/src/pages/user/Home.tsx:122-126 | a budget update by id keeps ids unique and mirrored |
| Budget.MapByIdOnly | client/src/pages/user/Home.tsx:122-126 | a budget update by id keeps the length and changes only the rows with that id |
| Budget.UniqueTotal | client/src/pages/user/Home.tsx:89-91 | with unique ids the found total row is the only row with its id |
| Budget.SetTotalOverwrites | client/src/pages/user/Home.tsx:112-130 | with unique ids and the month's first total row at index i, saving keeps the length, sets that row's budget to the input and keeps every other row |
| Budget.SetTotalAppends | client/src/pages/user/Home.tsx:133-147 | with no total row, saving appends exactly one row: its id is the next id, its embedded id equals it, its category is 1 and its budget is the input |
| Budget.SetTotalBalance | client/src/pages/user/Home.tsx:104-147 | with unique ids, after saving the balance is the input minus the month's spending |
| Budget.SetTotalOtherMonths | client/src/pages/user/Home.tsx:112-147 | with unique ids, saving one month's total leaves every other month's balance unchanged |
| Budget.SetTotalIdempotent | client/src/pages/user/Home.tsx:112-147 | saving the same total twice gives the same rows as saving it once |
| Budget.SetTotalWellFormed | client/src/pages/user/Home.tsx:112-147 | saving a total keeps ids unique and mirrored |
| Budget.AddSubRow | client/src/pages/user/Home.tsx:181-199 | an allocation keeps every existing row and appends exactly one, never merging: it has the next id (above every row id) as its id and embedded id, the selected month, the chosen category and the amount |
| Budget.AddSubRemaining | client/src/pages/user/Home.tsx:181-199 | appending an allocation of a category other than 1 lowers the month's balance by exactly its amount |
| Budget.AddWithTotalId | client/src/pages/user/Home.tsx:181-199 | an allocation under category id 1 spends nothing when the month has a total, and becomes the total when it has none |
| Budget.AddSubWellFormed | client/src/pages/user/Home.tsx:181-199 | appending an allocation keeps ids unique and mirrored |
| Budget.DebitBalance | client/src/pages/user/History.tsx:138-172 | the debit leaves the rows unchanged when the month has no total; otherwise the total drops by the amount, and so does the balance |
| Budget.CreditBalance | client/src/pages/user/History.tsx:204-239 | the refund leaves the rows unchanged when the month has no total; otherwise the total grows by the amount, and so does the balance |
| Budget.DebitTotalAt | client/src/pages/user/History.tsx:140-172 | with unique ids and the month's first total row at index i, a debit keeps the length, lowers that row's budget by the amount and leaves every other row unchanged |
| Budget.CreditTotalAt | client/src/pages/user/History.tsx:204-239 | with unique ids and the month's first total row at index i, a refund keeps the length, raises that row's budget by the amount and leaves every other row unchanged |
| Budget.CreditUndoesDebit | client/src/pages/user/History.tsx:140-239 | a refund of the debited amount restores the rows exactly |
| Budget.DebitCreditWellFormed | client/src/pages/user/History.tsx:140-239 | debit and refund keep ids unique and mirrored |
| UserHome.CategoryName | client/src/pages/user/Home.tsx:203-205 | the name is never empty; it is either the fallback label or the name of a catalog entry with that id; an unknown id gives the fallback |
| UserHome.CategoryNameFirst | client/src/pages/user/Home.tsx:203-205 | the first catalog entry with the id decides: its name when non-empty, the fallback label otherwise |
| UserHome.UserHomeScreen.constructor | client/src/pages/user/Home.tsx:62-79 | the screen starts on the given month with empty inputs and a zero balance |
| UserHome.UserHomeScreen.RefreshBalance | client/src/pages/user/Home.tsx:82-101 | the stored balance becomes the balance of the session user's selected month |
| UserHome.UserHomeScreen.SaveBudget | client/src/pages/user/Home.tsx:104-161 | with no user, an empty input or a failed save nothing changes; otherwise the user gets the month's total set to the input and the input is cleared, and (with unique ids) the balance becomes the input minus the month's spending |
| UserHome.UserHomeScreen.AddMonthlyCategory | client/src/pages/user/Home.tsx:164-231 | a missing user, category or amount, or an amount above the balance, changes nothing; otherwise a history record with the user id, category name, amount and month is returned exactly when the user save and the log post succeed; the session takes exactly one appended allocation exactly when the reload also succeeds, and then the balance drops by the amount and the inputs are cleared; on any failed step the inputs keep their values |
| UserHome.UserHomeScreen.FilteredMonthlyCategories | client/src/pages/user/Home.tsx:289-294 | the list shows exactly the selected month's rows whose category is not 1, and nothing without a user |
| History.FilteredEntries | client/src/pages/user/History.tsx:253-259 | an entry is listed iff it is in the log, has the user's id and the selected month, and its category or note contains the search term ignoring case |
| History.EmptySearchKeepsMonth | client/src/pages/user/History.tsx:253-259 | with an empty search every entry of the user and month is listed |
| History.NoUserListsNothing | client/src/pages/user/History.tsx:253-256 | without a signed-in user nothing is listed |
| History.Insert | client/src/pages/user/History.tsx:261-266 | inserting into an ordered list keeps it ordered and adds exactly the element to its multiset |
| History.SortBy | client/src/pages/user/History.tsx:261-266 | the sort result is ordered by amount (a missing amount counts as 0) and is a permutation of its input |
| History.InsertStable | client/src/pages/user/History.tsx:261-266 | inserting an entry puts it ahead of those with the same amount and keeps the order among the others |
| History.SortByStable | client/src/pages/user/History.tsx:261-266 | the sort is stable: for every amount, the entries with that amount keep their relative order |
| History.Sorted | client/src/pages/user/History.tsx:261-266 | `asc` is non-decreasing and `desc` non-increasing by amount, both permutations of the filtered list; with no order the list is returned as it is |
| History.SliceIndex | client/src/pages/user/History.tsx:268 | a `slice` bound is at most the length; one within the list is kept, one beyond it is cut to the length, a negative one counts from the end and one before the start becomes 0 |
| History.PageWindow | client/src/pages/user/History.tsx:64 | for page p ≥ 1, the page is the sorted list from (p-1)·5 to p·5, cut at its end, so it holds at most 5 entries |
| History.EntryOnItsPage | client/src/pages/user/History.tsx:268 | entry i of the sorted list is entry i mod 5 of page i div 5 + 1 |
| History.FindById | client/src/pages/user/History.tsx:197-198 | the entry found is in the log and has the id; None iff no entry has it |
| History.FindByIdFirst | client/src/pages/user/History.tsx:197-198 | the entry found is the first one with the id, the one whose amount is refunded |
| History.WithoutId | client/src/pages/user/History.tsx:200-201 | an entry survives the delete iff it is in the log and its id differs |
| History.DeleteUndoesAppend | client/src/pages/user/History.tsx:133-201 | deleting the id of an entry just appended under a fresh id restores the log |
| History.AddThenDeleteRestoresTotal | client/src/pages/user/History.tsx:140-239 | debiting an amount and refunding it restores the user's rows, and a debit of 0 changes nothing, which is why a zero entry needs no refund |
| History.HistoryScreen.constructor | client/src/pages/user/History.tsx:55-106 | the screen starts on the given month with the loaded log, empty inputs, no sort order and page 1 |
| History.HistoryScreen.RefreshBalance | client/src/pages/user/History.tsx:71-90 | the stored balance becomes the balance of the session user's selected month |
| History.HistoryScreen.VisibleEntries | client/src/pages/user/History.tsx:253-268 | the table shows at most 5 entries, each from the log, of the user and month and matching the search |
| History.HistoryScreen.AddTransaction | client/src/pages/user/History.tsx:108-185 | a missing amount, note or category, an amount above the balance, or a failed post changes nothing; otherwise exactly one entry (amount, note, category, month, user id) is appended; a signed-in user's total is debited once the save succeeds; the balance drops by the amount and the inputs are cleared unless that save failed; a balance that was up to date stays up to date |
| History.HistoryScreen.DeleteTransaction | client/src/pages/user/History.tsx:195-249 | an unknown id or a failed delete changes nothing; otherwise exactly the entries with the id are removed; a set, non-zero amount is refunded to a signed-in user's total once saved; the balance grows by the amount unless that save failed; a balance that was up to date stays up to date |
| CategoryUsers.FindCategoryId | client/src/pages/user/CategoryUsers.tsx:178-181 | a found id is non-zero and belongs to an entry with exactly that name; a name in no entry finds nothing |
| CategoryUsers.Resolve | client/src/pages/user/CategoryUsers.tsx:178-193 | the catalog is kept as a prefix and grows by at most one entry, and an entry with the name and the resolved id exists |
| CategoryUsers.ResolveExisting | client/src/pages/user/CategoryUsers.tsx:178-181 | a name already catalogued under a non-zero id leaves the catalog unchanged and resolves to the first such entry's id |
| CategoryUsers.ResolveCreates | client/src/pages/user/CategoryUsers.tsx:182-193 | a missing name appends exactly one entry with that name, the server's id and limit 0, and resolving it again creates nothing |
| CategoryUsers.CategoryUsersScreen.constructor | client/src/pages/user/CategoryUsers.tsx:60-77 | the screen starts on the given month with the catalog, empty inputs and a zero balance |
| CategoryUsers.CategoryUsersScreen.RefreshBalance | client/src/pages/user/CategoryUsers.tsx:79-98 | the stored balance becomes the balance of the session user's selected month |
| CategoryUsers.CategoryUsersScreen.SaveBudget | client/src/pages/user/CategoryUsers.tsx:101-158 | with no user, an empty input or a failed save nothing changes; otherwise the month's total is set to the input and the input cleared, and (with unique ids) the balance becomes the input minus the month's spending |
| CategoryUsers.CategoryUsersScreen.AddMonthlyCategory | client/src/pages/user/CategoryUsers.tsx:161-234 | a missing user, name or amount, an amount above the balance, or a failed catalog post changes nothing; otherwise the catalog becomes the resolved one even if later steps fail; after the user save and reload exactly one allocation with the resolved id is appended, the inputs are cleared and (for a category other than 1) the balance drops by the amount |
| CategoryUsers.CategoryUsersScreen.FilteredMonthlyCategories | client/src/pages/user/CategoryUsers.tsx:236-241 | the list shows exactly the selected month's rows whose category is not 1 |
| LegacyHome.FirstOfMonth | client/src/pages/Home.tsx:68-70 | the row found is of the month, whatever its category; None iff the month has no row |
| LegacyHome.FirstOfMonthAt | client/src/pages/Home.tsx:68-70 | the month's first row is the one found |
| LegacyHome.DisplayedVersusTotal | client/src/pages/Home.tsx:65-73 | the displayed budget is the budget of the month's first row; it equals the newer screens' total only when that row is a total row |
| LegacyHome.SaveAdditiveAdds | client/src/pages/Home.tsx:156-174 | with unique ids and the month's first row at index i, saving keeps the length and every other row, and that row gets the first row's record with the input added to its budget |
| LegacyHome.SaveAdditiveAppends | client/src/pages/Home.tsx:175-193 | with no row of the month, saving appends one total row with the next id and the input as budget |
| LegacyHome.SaveAdditiveDisplayed | client/src/pages/Home.tsx:149-193 | with unique ids, the displayed budget after saving is the one before plus the input |
| LegacyHome.SaveAdditiveTwice | client/src/pages/Home.tsx:156-174 | with unique ids, saving x twice adds 2x to the displayed budget: the save is not idempotent |
| LegacyHome.SaveAdditiveDiverges | client/src/pages/Home.tsx:156-174 | when the month's first row is a total with a non-zero budget, the additive save differs from the newer screens' overwrite |
| LegacyHome.SaveAdditiveUnique | client/src/pages/Home.tsx:156-193 | with unique ids before, the additive save keeps row ids unique |
| LegacyHome.SaveAdditiveWellFormed | client/src/pages/Home.tsx:156-193 | the additive save keeps row ids unique and mirrored |
| LegacyHome.UpdatedInfo | client/src/pages/Home.tsx:96-100 | the entered fields are taken; gender is true iff the label is "Male"; id, password, status and rows are kept |
| LegacyHome.UpdateUntouchedForm | client/src/pages/Home.tsx:76-100 | submitting the form as it was filled leaves the user unchanged |
| LegacyHome.PasswordChange | client/src/pages/Home.tsx:124-132 | the change succeeds iff the old password matches and the confirmation equals the new one; a wrong old password is reported first; on success only the password changes |
| LegacyHome.PasswordChangeChains | client/src/pages/Home.tsx:124-132 | after a change the new password must be quoted, and the old one is refused unless it equals the new |
| LegacyHome.LegacyHomeScreen.constructor | client/src/pages/Home.tsx:53-55 | the screen starts on the given month with a zero budget and an empty input |
| LegacyHome.LegacyHomeScreen.RefreshDisplayedBudget | client/src/pages/Home.tsx:65-73 | with rows, the shown budget becomes the displayed budget; with no user or no rows it keeps its old value |
| LegacyHome.LegacyHomeScreen.SaveBudget | client/src/pages/Home.tsx:149-207 | with no user, an empty input or a failed save nothing changes; otherwise the additive save is stored and the input cleared, and the displayed budget grows by the input |
| LegacyHome.LegacyHomeScreen.ChangePassword | client/src/pages/Home.tsx:117-146 | without a user nothing happens; otherwise the checks' verdict is returned, and the session changes only to the user with the new password after a successful save |
| LegacyHome.LegacyHomeScreen.UpdateInfo | client/src/pages/Home.tsx:88-114 | with a user and a successful save the session holds the merged record; otherwise nothing changes |
| EmailRule.ValidEmailMatchesPattern | client/src/pages/user/SignUp.tsx:19-22 | the state machine accepts exactly the strings of the form (plain)+ `@` (plain)+ `.` (plain)+, where plain excludes whitespace and `@` |
| EmailRule.ValidEmailOneAt | client/src/pages/user/SignUp.tsx:19-22 | an accepted email has no whitespace and exactly one `@` |
| EmailRule.EmailAccepted | client/src/pages/user/SignUp.tsx:19-22 | "a@b.c" is accepted |
| EmailRule.EmailWithoutDot | client/src/pages/user/SignUp.tsx:19-22 | a domain without a dot is refused |
| EmailRule.EmailWithoutLocalPart | client/src/pages/user/SignUp.tsx:19-22 | an empty local part is refused |
| EmailRule.EmailWithTwoAts | client/src/pages/user/SignUp.tsx:19-22 | a second `@` is refused |
| Registration.NewAccount | client/src/pages/user/SignUp.tsx:75-86 | the new id is above every user id (1 with no users, otherwise max+1); the entered fields are taken; gender and status are true; there are no rows |
| Registration.NewAccountKeepsIdsUnique | client/src/pages/SignUp.tsx:62-76 | appending the new account keeps user ids unique |
| UserSignUp.Validate | client/src/pages/user/SignUp.tsx:39-62 | the bad-email, short-password, missing-`@` and confirm-mismatch errors are each reported iff their check fails, all together, and no other error is reported |
| UserSignUp.OnFinish | client/src/pages/user/SignUp.tsx:35-99 | the errors are the validation's; a user is created iff there are none and both requests succeed, and it is the new account |
| UserSignUp.DuplicateEmailAccepted | client/src/pages/user/SignUp.tsx:71-88 | an email already registered passes validation: this screen has no duplicate check |
| SignUp.Validate | client/src/pages/SignUp.tsx:29-40 | the bad-email, short-password and confirm-mismatch errors are each reported iff their check fails, and no other |
| SignUp.OnFinish | client/src/pages/SignUp.tsx:29-82 | validation errors stop everything; a taken email (exact match) gives only the duplicate error; a user is created iff the form is valid, the list loads, the email is free and the post succeeds |
| SignUp.SignUpKeepsUsersUnique | client/src/pages/SignUp.tsx:53-76 | a created account keeps both ids and emails unique |
| SignUp.NoAtRule | client/src/pages/SignUp.tsx:35-37 | a password without `@` is accepted here |
| SignIn.FindByCredentials | client/src/pages/SignIn.tsx:49-51 | the user found has exactly the given email and password; None iff no user has both |
| SignIn.FindByCredentialsFirst | client/src/pages/SignIn.tsx:49-51 | the first matching user is the one found |
| SignIn.Verdict | client/src/pages/SignIn.tsx:39-61 | a malformed email gives the email error; a loaded list with no match gives the error on both fields; a failed request adds nothing |
| SignIn.OnFinish | client/src/pages/SignIn.tsx:34-73 | errors are the verdict's; navigation happens iff there are none; when a match exists the session holds exactly that user, otherwise the session is unchanged |
| SignIn.NavigatesIffSignedIn | client/src/pages/SignIn.tsx:46-73 | with a loaded user list, navigation happens iff the email is well-formed and a match exists |
| SignIn.FailedRequestNavigates | client/src/pages/SignIn.tsx:65-73 | as written, a well-formed email with a failed request collects no error, so the form navigates with the session as it was |
| SignIn.FailedRequestOnFreshSession | client/src/pages/SignIn.tsx:46-73 | as written, on a session nobody has signed in to, a well-formed email with a failed request navigates and leaves no user |
| SignIn.CheckedVerdict | client/src/pages/SignIn.tsx:46-73 | corrected: no error iff the email is well-formed, the request succeeded and a match exists |
| AdminLogin.FindAdmin | client/src/pages/admin/Login.tsx:24-26 | the admin found has exactly the username and password; None iff none has both |
| AdminLogin.Login | client/src/pages/admin/Login.tsx:18-40 | the outcome is navigation to `/users` iff the list loads and some admin matches both fields exactly; a mismatch is reported, and so is a failed request |
| AdminLogin.LoginIsCaseSensitive | client/src/pages/admin/Login.tsx:25 | a username differing only in case is refused |
| AdminCategoryPage.Filtered | client/src/pages/admin/Category.tsx:40-45 | a category is shown iff its name contains the search text ignoring case |
| AdminCategoryPage.FilteredOrder | client/src/pages/admin/Category.tsx:40-45 | the filter keeps catalog order: a concatenation filters part by part, and a single entry is kept exactly when its name matches |
| AdminCategoryPage.EmptySearchShowsAll | client/src/pages/admin/Category.tsx:40-45 | an empty search shows every category |
| AdminCategoryPage.Toggled | client/src/pages/admin/Category.tsx:57-60 | the length is kept; every entry keeps its id, name and image; entries with the record's id get the opposite of the record's status; all other entries are unchanged |
| AdminCategoryPage.ToggleTwiceRestores | client/src/pages/admin/Category.tsx:50-60 | toggling the same current record twice restores the list |
| AdminCategoryPage.NewCategory | client/src/pages/admin/Category.tsx:99-105 | the new id is above every id (1 when empty, otherwise max+1); the name and image are taken; status is true |
| AdminCategoryPage.AddKeepsIdsUnique | client/src/pages/admin/Category.tsx:99-110 | appending the new category keeps ids unique |
| AdminCategoryPage.CategoryPage.constructor | client/src/pages/admin/Category.tsx:17-36 | the page starts with the loaded list, an empty search and no image |
| AdminCategoryPage.CategoryPage.ToggleStatus | client/src/pages/admin/Category.tsx:48-65 | a successful patch replaces the list by the toggled one; a failed one leaves it unchanged |
| AdminCategoryPage.CategoryPage.AddCategory | client/src/pages/admin/Category.tsx:92-120 | without a name or an image, or with a failed post, nothing changes; otherwise the new category is appended and the image is cleared |
| AdminUsersPage.Filtered | client/src/pages/admin/Users.tsx:46-53 | a user is shown iff the fullname or the email contains the search text ignoring case |
| AdminUsersPage.FilteredOrder | client/src/pages/admin/Users.tsx:46-53 | the filter keeps list order: a concatenation filters part by part, and a single user is kept exactly when fullname or email matches |
| AdminUsersPage.EmptySearchShowsAll | client/src/pages/admin/Users.tsx:47-51 | an empty search shows every user |
| AdminUsersPage.Toggled | client/src/pages/admin/Users.tsx:67-73 | the length is kept; users with the record's id get the flipped status and no other field changes; other users are unchanged |
| AdminUsersPage.ToggleTwiceRestores | client/src/pages/admin/Users.tsx:58-72 | toggling the same current user twice restores the list |
| AdminUsersPage.UsersPage.constructor | client/src/pages/admin/Users.tsx:25-43 | the page starts with the cached list and an empty search |
| AdminUsersPage.UsersPage.ToggleStatus | client/src/pages/admin/Users.tsx:56-79 | a successful patch replaces the cached list by the toggled one; a failed one leaves it unchanged |
| SidebarAdmin.FirstPrefix | client/src/components/SidebarAdmin.tsx:23-24 | the entry found is in the table and its path prefixes the pathname; None iff no path does |
| SidebarAdmin.SelectedKey | client/src/components/SidebarAdmin.tsx:16-25 | the result is the path among `/dashboard`, `/users`, `/category` that prefixes the pathname (at most one can), or "dashboard" when none does |
| SidebarAdmin.SelectedKeyExamples | client/src/components/SidebarAdmin.tsx:23-25 | "/users/3" gives "/users", "/categoryX" gives "/category" and "/" gives "dashboard" |
| SidebarAdmin.MatchedPathIsNoMenuKey | client/src/components/SidebarAdmin.tsx:23-25 | as written, whenever a path matches, the selected key is none of the menu's keys |
| SidebarAdmin.SelectedMenuKey | client/src/components/SidebarAdmin.tsx:16-25 | corrected: the result is always a menu key; on a match it is the key mapped from the matching path, otherwise "dashboard" |
| SidebarAdmin.UsersPageHighlightsUsers | client/src/components/SidebarAdmin.tsx:16-25 | corrected: "/users/3" selects "users" |

## Left out

- HTTP requests (axios, fetch) and the mock REST backend: each request is a `bool` success parameter. The server's state after a partial failure is not modelled.
- The Cloudinary image upload (client/src/pages/admin/Category.tsx:68-89) is a foreign service; the image URL is an optional opaque string.
- `Date.now()` and dayjs: a transaction id is a given `int`, a creation timestamp is an opaque string, and months are `(year, month)` pairs. The day part of a stored date is dropped.
- `Number(...)` parsing (including NaN) and `toLocaleString`: amounts are `int` inputs.
- Case folding covers ASCII letters only. JavaScript's `toLowerCase` also folds non-ASCII letters, so searches on accented names can differ.
- The `length` of a string counts characters here. JavaScript counts UTF-16 code units, which differs outside the basic plane.
- History.HistoryScreen.AddTransaction: the handler's own balance update is modelled; the effect that later re-derives the balance from the saved user is `RefreshBalance`, a separate call.
- CategoryUsers.CategoryUsersScreen.AddMonthlyCategory: the server is assumed to answer a created catalog entry with an id (`serverId`); a missing id in the response is not modelled.
- The admin users list lives in a shared store; it is modelled as a field of the page. Its `setUsers` reducer (client/src/features/users_Slice.tsx) and the handlers' reload of the user list into it are not modelled.
- The antd form rules (required fields) are not modelled except the category name; an empty string stands for a field left blank.
- Rendering, modals, toasts, navigation effects, routes (client/src/router/routers.tsx), the store set-up (client/src/store/store.tsx), localStorage, "remember me", and the menu components Header.tsx, Sidebar.tsx and HeaderAdmin.tsx.
- Concurrency and responses arriving out of order.

## Findings

| source | as written | input that shows it | evidently intended | confidence | as-written member | corrected member |
|---|---|---|---|---|---|---|
| client/src/pages/SignIn.tsx:46-73 | a failed user-list request is caught and adds no error, so the form navigates to `/home` with the session as it was, which holds no user when nobody had signed in | a well-formed email such as "a@b.c" while the request fails | a failed request blocks navigation | medium, not executed | SignIn.FailedRequestOnFreshSession | SignIn.CheckedVerdict |
| client/src/components/SidebarAdmin.tsx:23-25 | the selected key is the matched path ("/users"), but the menu items' keys are "dashboard", "users", "category", so no item is highlighted on a matched page | pathname "/users/3" | the key mapped from the matched path (`pathToKey[path]`) | high, not executed | SidebarAdmin.MatchedPathIsNoMenuKey | SidebarAdmin.SelectedMenuKey |
