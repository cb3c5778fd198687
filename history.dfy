/** The spending history screen (pages/user/History.tsx): recording a
    spending against the month's total row, deleting it with a refund, and
    listing the month's entries with search, sort by amount and pages of 5. */
module History {
  import opened Common
  import opened Text
  import opened Model
  import opened Budget
  import opened UserSlice

  /** The sort button's state: none yet, ascending or descending. */
  datatype SortOrder = Unsorted | Asc | Desc

  /** The table's fixed page size. */
  const PageSize: nat := 5

  // ---------------------------------------------------------------------
  // Listing: filtered, sorted, paginated
  // ---------------------------------------------------------------------

  /** The entry is the signed-in user's, of month `m`, and its category or
      note contains the search text, ignoring case. */
  predicate Listed(t: Transaction, user: Option<User>, m: YearMonth, search: string) {
    user.Some? && t.userId == user.value.id && t.month == m
    && (IncludesIgnoringCase(t.category, search) || IncludesIgnoringCase(t.note, search))
  }

  function ListedBy(user: Option<User>, m: YearMonth, search: string): Transaction -> bool {
    t => Listed(t, user, m, search)
  }

  /** The entry is the signed-in user's and of month `m`. */
  function OfUserMonth(user: Option<User>, m: YearMonth): Transaction -> bool {
    (t: Transaction) => user.Some? && t.userId == user.value.id && t.month == m
  }

  /** `filtered`. */
  function FilteredEntries(txs: seq<Transaction>, user: Option<User>, m: YearMonth, search: string): (r: seq<Transaction>)
    ensures forall t :: t in r <==> t in txs && Listed(t, user, m, search)
  {
    Filter(txs, ListedBy(user, m, search))
  }

  /** An empty search keeps every entry of the user's month. */
  lemma EmptySearchKeepsMonth(txs: seq<Transaction>, user: Option<User>, m: YearMonth)
    ensures FilteredEntries(txs, user, m, "") == Filter(txs, OfUserMonth(user, m))
  {
    forall i | 0 <= i < |txs| ensures ListedBy(user, m, "")(txs[i]) == OfUserMonth(user, m)(txs[i]) {
      assert Lower("") == "";
      ContainsEmpty(Lower(txs[i].category));
    }
    FilterAgree(txs, ListedBy(user, m, ""), OfUserMonth(user, m));
  }

  /** Without a signed-in user nothing is listed. */
  lemma NoUserListsNothing(txs: seq<Transaction>, m: YearMonth, search: string)
    ensures FilteredEntries(txs, None, m, search) == []
  {
    FilterNone(txs, ListedBy(None, m, search));
  }

  /** The sort key `t.budget || 0`. */
  function Amount(t: Transaction): int {
    match t.budget
    case Some(b) => b
    case None => 0
  }

  /** `x` may stand before `y`: non-decreasing amounts when `asc`,
      non-increasing otherwise. */
  predicate InOrder(x: Transaction, y: Transaction, asc: bool) {
    if asc then Amount(x) <= Amount(y) else Amount(x) >= Amount(y)
  }

  predicate Ordered(s: seq<Transaction>, asc: bool) {
    forall i, j :: 0 <= i < j < |s| ==> InOrder(s[i], s[j], asc)
  }

  /** An entry that may precede every entry of an ordered list can head it. */
  lemma OrderedCons(y: Transaction, t: seq<Transaction>, asc: bool)
    requires Ordered(t, asc)
    requires forall j :: 0 <= j < |t| ==> InOrder(y, t[j], asc)
    ensures Ordered([y] + t, asc)
  {
    forall i, j | 0 <= i < j < |[y] + t| ensures InOrder(([y] + t)[i], ([y] + t)[j], asc) {
      if i > 0 {
        assert ([y] + t)[i] == t[i - 1];
      }
      assert ([y] + t)[j] == t[j - 1];
    }
  }

  /** Insert `x` before the first entry it may precede, so that it stays
      ahead of the entries with the same amount. */
  function Insert(x: Transaction, s: seq<Transaction>, asc: bool): (r: seq<Transaction>)
    requires Ordered(s, asc)
    ensures Ordered(r, asc)
    ensures multiset(r) == multiset(s) + multiset{x}
  {
    if |s| == 0 then [x]
    else if InOrder(x, s[0], asc) then
      assert s == [s[0]] + s[1..];
      assert forall j :: 0 <= j < |s| ==> InOrder(x, s[j], asc) by {
        forall j | 0 < j < |s| ensures InOrder(x, s[j], asc) {
          assert InOrder(s[0], s[j], asc);
        }
      }
      OrderedCons(x, s, asc);
      [x] + s
    else
      var rest := s[1..];
      assert Ordered(rest, asc) by {
        forall i, j | 0 <= i < j < |rest| ensures InOrder(rest[i], rest[j], asc) {
          assert rest[i] == s[i + 1] && rest[j] == s[j + 1];
        }
      }
      var tail := Insert(x, rest, asc);
      assert s == [s[0]] + rest;
      assert forall j :: 0 <= j < |tail| ==> InOrder(s[0], tail[j], asc) by {
        forall j | 0 <= j < |tail| ensures InOrder(s[0], tail[j], asc) {
          assert tail[j] in multiset(tail);
          if tail[j] != x {
            assert tail[j] in multiset(rest);
            var k :| 0 <= k < |rest| && rest[k] == tail[j];
            assert rest[k] == s[k + 1];
          }
        }
      }
      OrderedCons(s[0], tail, asc);
      [s[0]] + tail
  }

  /** The stable sort `[...filtered].sort(...)` by amount. */
  function SortBy(s: seq<Transaction>, asc: bool): (r: seq<Transaction>)
    ensures Ordered(r, asc)
    ensures multiset(r) == multiset(s)
  {
    if |s| == 0 then []
    else
      assert s == [s[0]] + s[1..];
      Insert(s[0], SortBy(s[1..], asc), asc)
  }

  /** The entries whose sort key is `v`. */
  function AmountIs(v: int): Transaction -> bool {
    (t: Transaction) => Amount(t) == v
  }

  lemma OrderedTail(s: seq<Transaction>, asc: bool)
    requires |s| > 0 && Ordered(s, asc)
    ensures Ordered(s[1..], asc)
  {
    var rest := s[1..];
    forall i, j | 0 <= i < j < |rest| ensures InOrder(rest[i], rest[j], asc) {
      assert rest[i] == s[i + 1] && rest[j] == s[j + 1];
    }
  }

  /** Inserting `x` puts it ahead of every entry with the same amount and
      moves no entry past another of equal amount. */
  lemma {:induction false} InsertStable(x: Transaction, s: seq<Transaction>, asc: bool, v: int)
    requires Ordered(s, asc)
    ensures Filter(Insert(x, s, asc), AmountIs(v)) ==
      (if Amount(x) == v then [x] else []) + Filter(s, AmountIs(v))
  {
    if |s| == 0 {
      assert [x][1..] == [];
    } else if InOrder(x, s[0], asc) {
      assert ([x] + s)[1..] == s;
    } else {
      var rest := s[1..];
      OrderedTail(s, asc);
      InsertStable(x, rest, asc, v);
      var tail := Insert(x, rest, asc);
      assert ([s[0]] + tail)[1..] == tail;
      assert Amount(s[0]) != Amount(x);
    }
  }

  /** The sort is stable: for every amount, the entries with that amount
      appear in the order they had, as with JavaScript's stable sort. */
  lemma {:induction false} SortByStable(s: seq<Transaction>, asc: bool, v: int)
    ensures Filter(SortBy(s, asc), AmountIs(v)) == Filter(s, AmountIs(v))
  {
    if |s| > 0 {
      SortByStable(s[1..], asc, v);
      InsertStable(s[0], SortBy(s[1..], asc), asc, v);
    }
  }

  /** `sorted`: ordered by amount when an order is set, otherwise the
      filtered list as it is; always a permutation of it. */
  function Sorted(filtered: seq<Transaction>, order: SortOrder): (r: seq<Transaction>)
    ensures multiset(r) == multiset(filtered)
    ensures |r| == |filtered|
    ensures order == Asc ==> Ordered(r, true)
    ensures order == Desc ==> Ordered(r, false)
    ensures order == Unsorted ==> r == filtered
  {
    var r := match order
      case Asc => SortBy(filtered, true)
      case Desc => SortBy(filtered, false)
      case Unsorted => filtered;
    assert |r| == |multiset(r)| == |multiset(filtered)| == |filtered|;
    r
  }

  /** The position `Array.prototype.slice` reads an index argument as:
      negative counts from the end, and it is clamped to `[0, n]`. */
  function SliceIndex(k: int, n: nat): (r: nat)
    ensures r <= n
    ensures 0 <= k <= n ==> r == k
    ensures k > n ==> r == n
    ensures k < 0 && 0 <= n + k ==> r == n + k
    ensures n + k < 0 ==> r == 0
  {
    if k < 0 then (if n + k < 0 then 0 else n + k)
    else if k > n then n
    else k
  }

  /** `s.slice(start, end)`. */
  function JsSlice<T>(s: seq<T>, start: int, end: int): seq<T> {
    var from, to := SliceIndex(start, |s|), SliceIndex(end, |s|);
    if from < to then s[from..to] else []
  }

  function Min(a: int, b: int): int {
    if a <= b then a else b
  }

  /** `paginated = sorted.slice((page - 1) * pageSize, page * pageSize)`. */
  function Paginated(sorted: seq<Transaction>, page: int): seq<Transaction> {
    JsSlice(sorted, (page - 1) * PageSize, page * PageSize)
  }

  /** A page (counted from 1) is the window `[(page-1)*5, page*5)` of the
      sorted list, cut at its end, so it holds at most 5 entries. */
  lemma PageWindow(sorted: seq<Transaction>, page: int)
    requires page >= 1
    ensures var n := |sorted|;
      Paginated(sorted, page) == sorted[Min((page - 1) * PageSize, n)..Min(page * PageSize, n)]
    ensures |Paginated(sorted, page)| <= PageSize
  {
    var n := |sorted|;
    var lo, hi := (page - 1) * PageSize, page * PageSize;
    assert 0 <= lo <= hi;
    assert SliceIndex(lo, n) == Min(lo, n);
    assert SliceIndex(hi, n) == Min(hi, n);
  }

  /** Every entry of the sorted list is on page `i / 5 + 1`, at row `i % 5`. */
  lemma EntryOnItsPage(sorted: seq<Transaction>, i: nat)
    requires i < |sorted|
    ensures var p := Paginated(sorted, i / PageSize + 1);
      i % PageSize < |p| && p[i % PageSize] == sorted[i]
  {
    var page := i / PageSize + 1;
    PageWindow(sorted, page);
    assert (page - 1) * PageSize == i - i % PageSize;
  }

  /** The first entry with the id, as `transactions.find(t => t.id === id)`. */
  function FindById(txs: seq<Transaction>, id: int): (r: Option<Transaction>)
    ensures r.Some? ==> r.value in txs && r.value.id == id
    ensures r.None? <==> forall t :: t in txs ==> t.id != id
  {
    if |txs| == 0 then None
    else if txs[0].id == id then Some(txs[0])
    else FindById(txs[1..], id)
  }

  /** The entry found is the first one carrying the id. */
  lemma {:induction false} FindByIdFirst(txs: seq<Transaction>, id: int, i: nat)
    requires i < |txs| && txs[i].id == id
    requires forall j :: 0 <= j < i ==> txs[j].id != id
    ensures FindById(txs, id) == Some(txs[i])
  {
    if i > 0 {
      FindByIdFirst(txs[1..], id, i - 1);
    }
  }

  function IdIsNot(id: int): Transaction -> bool {
    (t: Transaction) => t.id != id
  }

  /** `prev.filter(t => t.id !== id)`: exactly the entries with the id go. */
  function WithoutId(txs: seq<Transaction>, id: int): (r: seq<Transaction>)
    ensures forall t :: t in r <==> t in txs && t.id != id
  {
    Filter(txs, IdIsNot(id))
  }

  /** Deleting the id of an entry just appended, when no older entry has
      it, gives back the list before the append. */
  lemma DeleteUndoesAppend(txs: seq<Transaction>, t: Transaction)
    requires forall x :: x in txs ==> x.id != t.id
    ensures WithoutId(txs + [t], t.id) == txs
  {
    FilterConcat(txs, [t], IdIsNot(t.id));
    FilterAll(txs, IdIsNot(t.id));
    assert [t][1..] == [];
  }

  /** Recording an amount and deleting it again restores the month's rows;
      only an amount that `recordToDelete.budget` treats as true is
      refunded, and a zero debit changes nothing to begin with. */
  lemma AddThenDeleteRestoresTotal(rows: seq<MonthlyRow>, m: YearMonth, amount: int)
    ensures CreditTotal(DebitTotal(rows, m, amount), m, amount) == rows
    ensures amount == 0 ==> DebitTotal(rows, m, amount) == rows
  {
    CreditUndoesDebit(rows, m, amount);
    if amount == 0 {
      if t :| FindTotal(rows, m) == Some(t) {
        assert MapById(rows, t.id, AddTo(0)) == rows;
      }
    }
  }

  /** The guard of `handleAddTransaction`: `!amount || !note ||
      !selectedCategory`, or an amount above the displayed balance. */
  predicate AddRefused(amount: Option<int>, note: string, category: string, balance: int) {
    amount.None? || note == "" || category == "" || amount.value > balance
  }

  /** `recordToDelete.budget` is truthy: set and non-zero. */
  predicate Refundable(t: Transaction) {
    t.budget.Some? && t.budget.value != 0
  }

  // ---------------------------------------------------------------------
  // The screen
  // ---------------------------------------------------------------------

  class HistoryScreen {
    const session: UserSession
    var selectedMonth: YearMonth
    var currentBudget: int
    /** The local copy of the `transactions` collection. */
    var transactions: seq<Transaction>
    /** The amount input; `None` is the empty field. */
    var amount: Option<int>
    var note: string
    var selectedCategory: string
    var searchTerm: string
    var sortOrder: SortOrder
    var page: int

    constructor (session: UserSession, today: YearMonth, loaded: seq<Transaction>)
      ensures this.session == session && selectedMonth == today && currentBudget == 0
      ensures transactions == loaded && amount == None && note == "" && selectedCategory == ""
      ensures searchTerm == "" && sortOrder == Unsorted && page == 1
    {
      this.session := session;
      selectedMonth := today;
      currentBudget := 0;
      transactions := loaded;
      amount := None;
      note := "";
      selectedCategory := "";
      searchTerm := "";
      sortOrder := Unsorted;
      page := 1;
    }

    /** The effect on `[user, selectedMonth]`: re-derive the balance. */
    method RefreshBalance()
      modifies this`currentBudget
      ensures currentBudget == Balance(session.user, selectedMonth)
    {
      var user := session.user;
      if user.Some? && |user.value.monthlyCategories| > 0 {
        currentBudget := Remaining(user.value.monthlyCategories, selectedMonth);
      } else {
        currentBudget := 0;
      }
    }

    /** The page of entries the table shows. */
    function Visible(): seq<Transaction>
      reads this, session
    {
      Paginated(Sorted(FilteredEntries(transactions, session.user, selectedMonth, searchTerm), sortOrder), page)
    }

    /** The table shows at most 5 entries, each the signed-in user's, of
        the selected month and matching the search. */
    lemma VisibleEntries()
      requires page >= 1
      ensures |Visible()| <= PageSize
      ensures forall t :: t in Visible() ==>
        t in transactions && Listed(t, session.user, selectedMonth, searchTerm)
    {
      var filtered := FilteredEntries(transactions, session.user, selectedMonth, searchTerm);
      var sorted := Sorted(filtered, sortOrder);
      PageWindow(sorted, page);
      forall t | t in Visible() ensures t in multiset(filtered) {
        assert t in sorted;
        assert t in multiset(sorted);
      }
    }

    /** `handleAddTransaction`. A missing amount, note or category, or an
        amount above the displayed balance, is refused with nothing changed
        (`AddRefused`). Otherwise the entry is posted (`posted`) and
        appended; with a signed-in user the month's total row is debited
        and saved (`userSaved`); once that step is passed the balance drops
        by the amount and the inputs are cleared. A failed step leaves what
        the earlier steps did. */
    method AddTransaction(posted: bool, userSaved: bool, now: int, createdAt: string)
      modifies this`transactions, this`currentBudget, this`amount, this`note, this`selectedCategory, session
      ensures AddRefused(old(amount), old(note), old(selectedCategory), old(currentBudget)) || !posted ==>
        transactions == old(transactions) && currentBudget == old(currentBudget)
        && session.user == old(session.user)
        && amount == old(amount) && note == old(note) && selectedCategory == old(selectedCategory)
      ensures !AddRefused(old(amount), old(note), old(selectedCategory), old(currentBudget)) && posted ==>
        var entered := old(amount).value;
        var uid := if old(session.user).Some? then old(session.user).value.id else 0;
        transactions == old(transactions) + [Transaction(now, uid, old(selectedCategory),
          Some(entered), old(note), selectedMonth, createdAt)]
        && (old(session.user).None? || !userSaved ==> session.user == old(session.user))
        && (old(session.user).Some? && userSaved ==>
              var u := old(session.user).value;
              session.user == Some(u.(monthlyCategories := DebitTotal(u.monthlyCategories, selectedMonth, entered))))
        && (old(session.user).None? || userSaved ==>
              currentBudget == old(currentBudget) - entered
              && amount == None && note == "" && selectedCategory == "")
        && (old(session.user).Some? && !userSaved ==>
              currentBudget == old(currentBudget)
              && amount == old(amount) && note == old(note) && selectedCategory == old(selectedCategory))
      ensures old(session.user).Some? && UniqueIds(old(session.user).value.monthlyCategories)
              && FindTotal(old(session.user).value.monthlyCategories, selectedMonth).Some?
              && old(currentBudget) == Balance(old(session.user), selectedMonth) ==>
        currentBudget == Balance(session.user, selectedMonth)
    {
      if AddRefused(amount, note, selectedCategory, currentBudget) {
        return;
      }
      var entered := amount.value;
      var user := session.user;
      var entry := Transaction(now, if user.Some? then user.value.id else 0, selectedCategory,
        Some(entered), note, selectedMonth, createdAt);
      if !posted {
        return;
      }
      transactions := transactions + [entry];
      if user.Some? {
        var u := user.value;
        var updated := u.(monthlyCategories := DebitTotal(u.monthlyCategories, selectedMonth, entered));
        if !userSaved {
          return;
        }
        if UniqueIds(u.monthlyCategories) {
          DebitBalance(u.monthlyCategories, selectedMonth, entered);
        }
        session.SetUser(Some(updated));
      }
      currentBudget := currentBudget - entered;
      amount := None;
      note := "";
      selectedCategory := "";
    }

    /** The delete confirmation's `onOk`. An id not in the list does
        nothing. Otherwise, once the delete succeeds (`deleted`), every
        entry with the id is removed; when a user is signed in and the
        entry's amount is set and non-zero, the amount is added back to the
        month's total row and saved (`userSaved`); once that step is passed
        the balance grows by the amount (0 when unset). */
    method DeleteTransaction(id: int, deleted: bool, userSaved: bool)
      modifies this`transactions, this`currentBudget, session
      ensures FindById(old(transactions), id).None? || !deleted ==>
        transactions == old(transactions) && currentBudget == old(currentBudget)
        && session.user == old(session.user)
      ensures FindById(old(transactions), id).Some? && deleted ==>
        var rec := FindById(old(transactions), id).value;
        var refund := old(session.user).Some? && Refundable(rec);
        transactions == WithoutId(old(transactions), id)
        && (!refund || !userSaved ==> session.user == old(session.user))
        && (refund && userSaved ==>
              var u := old(session.user).value;
              session.user == Some(u.(monthlyCategories :=
                CreditTotal(u.monthlyCategories, selectedMonth, rec.budget.value))))
        && (!refund || userSaved ==> currentBudget == old(currentBudget) + Amount(rec))
        && (refund && !userSaved ==> currentBudget == old(currentBudget))
      ensures old(session.user).Some? && UniqueIds(old(session.user).value.monthlyCategories)
              && FindTotal(old(session.user).value.monthlyCategories, selectedMonth).Some?
              && old(currentBudget) == Balance(old(session.user), selectedMonth) ==>
        currentBudget == Balance(session.user, selectedMonth)
    {
      var found := FindById(transactions, id);
      if found.None? {
        return;
      }
      var rec := found.value;
      if !deleted {
        return;
      }
      transactions := WithoutId(transactions, id);
      var user := session.user;
      if user.Some? && Refundable(rec) {
        var u := user.value;
        var updated := u.(monthlyCategories :=
          CreditTotal(u.monthlyCategories, selectedMonth, rec.budget.value));
        if !userSaved {
          return;
        }
        if UniqueIds(u.monthlyCategories) {
          CreditBalance(u.monthlyCategories, selectedMonth, rec.budget.value);
        }
        session.SetUser(Some(updated));
      }
      currentBudget := currentBudget + Amount(rec);
    }
  }
}
