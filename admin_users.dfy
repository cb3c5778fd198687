/** The administrator's user list (pages/admin/Users.tsx): search by name
    or email, and switching an account on or off. */
module AdminUsersPage {
  import opened Common
  import opened Text
  import opened Model

  predicate UserMatches(u: User, search: string) {
    IncludesIgnoringCase(u.fullname, search) || IncludesIgnoringCase(u.email, search)
  }

  function MatchesBy(search: string): User -> bool {
    (u: User) => UserMatches(u, search)
  }

  /** `filteredUsers`: the users whose full name or email contains the
      search text, ignoring case, in list order. */
  function Filtered(users: seq<User>, search: string): (r: seq<User>)
    ensures forall u :: u in r <==> u in users && UserMatches(u, search)
  {
    Filter(users, MatchesBy(search))
  }

  /** The filter keeps the list's order: filtering a concatenation
      filters each part, and a single user is kept exactly when it
      matches. */
  lemma FilteredOrder(a: seq<User>, b: seq<User>, u: User, search: string)
    ensures Filtered(a + b, search) == Filtered(a, search) + Filtered(b, search)
    ensures Filtered([u], search) == if UserMatches(u, search) then [u] else []
  {
    FilterConcat(a, b, MatchesBy(search));
    assert [u][1..] == [];
  }

  /** An empty search shows every user. */
  lemma EmptySearchShowsAll(users: seq<User>)
    ensures Filtered(users, "") == users
  {
    assert Lower("") == "";
    forall i | 0 <= i < |users| ensures MatchesBy("")(users[i]) {
      ContainsEmpty(Lower(users[i].fullname));
    }
    FilterAll(users, MatchesBy(""));
  }

  /** The `map` of `toggleStatus`: every user with the record's id gets
      the opposite of the record's status and keeps every other field; the
      other users are unchanged. */
  function Toggled(users: seq<User>, rec: User): (r: seq<User>)
    ensures |r| == |users|
    ensures forall i :: 0 <= i < |users| && users[i].id != rec.id ==> r[i] == users[i]
    ensures forall i :: 0 <= i < |users| && users[i].id == rec.id ==>
      r[i] == users[i].(status := !rec.status)
  {
    seq(|users|, i requires 0 <= i < |users| =>
      if users[i].id == rec.id then users[i].(status := !rec.status) else users[i])
  }

  predicate Current(users: seq<User>, rec: User) {
    forall i :: 0 <= i < |users| && users[i].id == rec.id ==> users[i].status == rec.status
  }

  /** Toggling the shown record, then the record as it is shown after that,
      restores the list. */
  lemma ToggleTwiceRestores(users: seq<User>, rec: User)
    requires Current(users, rec)
    ensures var once := Toggled(users, rec);
      var shown := rec.(status := !rec.status);
      Current(once, shown) && Toggled(once, shown) == users
  {
  }

  class UsersPage {
    /** The cached user list of the store (`state.users.users`). */
    var users: seq<User>
    var searchText: string

    constructor (loaded: seq<User>)
      ensures users == loaded && searchText == ""
    {
      users := loaded;
      searchText := "";
    }

    function Shown(): seq<User>
      reads this
    {
      Filtered(users, searchText)
    }

    /** `toggleStatus(record)`; `patched` is the request answering `ok`. */
    method ToggleStatus(rec: User, patched: bool)
      modifies this`users
      ensures patched ==> users == Toggled(old(users), rec)
      ensures !patched ==> users == old(users)
    {
      if patched {
        users := Toggled(users, rec);
      }
    }
  }
}
