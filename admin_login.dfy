/** The administrator login (pages/admin/Login.tsx): the loaded admin
    records are searched for an exact username and password pair. */
module AdminLogin {
  import opened Common
  import opened Model

  datatype LoginOutcome = NavigateTo(path: string) | BadCredentials | RequestFailed

  predicate AdminMatches(a: Admin, username: string, password: string) {
    a.usename == username && a.password == password
  }

  /** `admins.find(a => a.usename === username && a.password === password)`. */
  function FindAdmin(admins: seq<Admin>, username: string, password: string): (r: Option<Admin>)
    ensures r.Some? ==> r.value in admins && AdminMatches(r.value, username, password)
    ensures r.None? <==> forall a :: a in admins ==> !AdminMatches(a, username, password)
  {
    if |admins| == 0 then None
    else if AdminMatches(admins[0], username, password) then Some(admins[0])
    else FindAdmin(admins[1..], username, password)
  }

  /** `onFinish`: `fetched` is the admin list, `None` when the request fails. */
  function Login(fetched: Option<seq<Admin>>, username: string, password: string): (r: LoginOutcome)
    ensures r == NavigateTo("/users") <==>
      fetched.Some? && exists a :: a in fetched.value && AdminMatches(a, username, password)
    ensures r == RequestFailed <==> fetched.None?
    ensures r.NavigateTo? ==> r.path == "/users"
  {
    match fetched
    case None => RequestFailed
    case Some(admins) =>
      if FindAdmin(admins, username, password).Some? then NavigateTo("/users") else BadCredentials
  }

  /** Comparison is exact: a username differing only in case is refused. */
  lemma LoginIsCaseSensitive()
    ensures Login(Some([Admin("Admin", "123456")]), "admin", "123456") == BadCredentials
  {
    assert "Admin" != "admin" by {
      assert "Admin"[0] != "admin"[0];
    }
  }
}
