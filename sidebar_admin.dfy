/** The administrator sidebar's highlighted entry (components/SidebarAdmin.tsx). */
module SidebarAdmin {
  import opened Common
  import opened Text

  /** `pathToKey`, in the order `Object.keys` lists it. */
  const PathToKey: seq<(string, string)> :=
    [("/dashboard", "dashboard"), ("/users", "users"), ("/category", "category")]

  /** The keys of the menu's items. */
  const MenuKeys: seq<string> := ["dashboard", "users", "category", "signout"]

  const Paths: seq<string> := ["/dashboard", "/users", "/category"]

  /** The first entry of `table` whose path is a prefix of `pathname`. */
  function FirstPrefix(table: seq<(string, string)>, pathname: string): (r: Option<(string, string)>)
    ensures r.Some? ==> r.value in table && StartsWith(pathname, r.value.0)
    ensures r.None? <==> forall e :: e in table ==> !StartsWith(pathname, e.0)
  {
    if |table| == 0 then None
    else if StartsWith(pathname, table[0].0) then Some(table[0])
    else FirstPrefix(table[1..], pathname)
  }

  /** The three paths differ at their second character, so a pathname has
      at most one of them as a prefix. */
  lemma PathsExclusive(pathname: string, p: string, q: string)
    requires p in Paths && q in Paths
    requires StartsWith(pathname, p) && StartsWith(pathname, q)
    ensures p == q
  {
    assert p[1] == pathname[1] == q[1];
  }

  /** `selectedKey` as written: the first path that prefixes the pathname,
      itself, or "dashboard" when none does. */
  function SelectedKey(pathname: string): (r: string)
    ensures r == "dashboard" || r in Paths
    ensures r in Paths ==> StartsWith(pathname, r)
    ensures (forall p :: p in Paths ==> !StartsWith(pathname, p)) ==> r == "dashboard"
    ensures forall p :: p in Paths && StartsWith(pathname, p) ==> r == p
  {
    match FirstPrefix(PathToKey, pathname)
    case Some(e) =>
      assert e.0 in Paths;
      forall p | p in Paths && StartsWith(pathname, p) ensures e.0 == p {
        PathsExclusive(pathname, e.0, p);
      }
      e.0
    case None => "dashboard"
  }

  /** The order of the table decides: `/users` is tried after `/dashboard`. */
  lemma SelectedKeyExamples()
    ensures SelectedKey("/users/3") == "/users"
    ensures SelectedKey("/categoryX") == "/category"
    ensures SelectedKey("/") == "dashboard"
  {
    assert !StartsWith("/users/3", "/dashboard") by { assert "/users/3"[1] != "/dashboard"[1]; }
    assert StartsWith("/users/3", "/users") by { assert "/users/3"[..6] == "/users"; }
    assert !StartsWith("/categoryX", "/dashboard") by { assert "/categoryX"[1] != "/dashboard"[1]; }
    assert !StartsWith("/categoryX", "/users") by { assert "/categoryX"[1] != "/users"[1]; }
    assert StartsWith("/categoryX", "/category") by { assert "/categoryX"[..9] == "/category"; }
  }

  /** As written, a matched path is never a menu key, so on every admin
      page only the fallback "dashboard" can be highlighted. */
  lemma MatchedPathIsNoMenuKey(pathname: string)
    ensures SelectedKey(pathname) in MenuKeys <==> SelectedKey(pathname) == "dashboard"
  {
    var r := SelectedKey(pathname);
    if r in Paths {
      assert r[0] == '/';
      assert forall k :: k in MenuKeys ==> k[0] != '/';
    }
  }

  /** The evidently intended rule: the menu key mapped from the first
      matching path, or "dashboard". */
  function SelectedMenuKey(pathname: string): (r: string)
    ensures r in MenuKeys
    ensures (forall p :: p in Paths ==> !StartsWith(pathname, p)) ==> r == "dashboard"
    ensures SelectedKey(pathname) != "dashboard" ==> r == SelectedKey(pathname)[1..]
    ensures forall e :: e in PathToKey && StartsWith(pathname, e.0) ==> r == e.1
  {
    match FirstPrefix(PathToKey, pathname)
    case Some(e) => e.1
    case None => "dashboard"
  }

  /** With the intended rule a user's page highlights the users entry. */
  lemma UsersPageHighlightsUsers(id: string)
    ensures SelectedMenuKey("/users/" + id) == "users"
  {
    var p := "/users/" + id;
    assert !StartsWith(p, "/dashboard") by { assert p[1] == 'u'; }
    assert StartsWith(p, "/users") by { assert p[..6] == "/users"; }
    assert PathToKey[1..] == [("/users", "users"), ("/category", "category")];
    assert FirstPrefix(PathToKey[1..], p) == Some(("/users", "users"));
    assert FirstPrefix(PathToKey, p) == Some(("/users", "users"));
  }
}
