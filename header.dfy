/** The navigation header: which menu entry is active, the menu title by
    role, and where logging out leads. */
module Header {
  import opened Js

  /** `pathname === href || (pathname && pathname.startsWith(href + "/"))`. */
  predicate IsActive(pathname: Option<string>, href: string) {
    pathname == Some(href) || (Truthy(pathname) && StartsWith(pathname.value, href + "/"))
  }

  /** An active entry's path is a prefix of the current one, ending at the
      end of the path or at a segment boundary. */
  lemma ActiveMeansSegmentPrefix(pathname: Option<string>, href: string)
    ensures IsActive(pathname, href) <==>
      pathname.Some? && StartsWith(pathname.value, href)
      && (|pathname.value| == |href| || pathname.value[|href|] == '/')
  {
    if pathname.Some? && StartsWith(pathname.value, href) && |pathname.value| > |href| {
      var p := pathname.value;
      assert StartsWith(p, href + "/") <==> p[|href|] == '/' by {
        assert p[..|href| + 1] == p[..|href|] + [p[|href|]];
      }
    }
    if pathname.Some? && StartsWith(pathname.value, href) && |pathname.value| == |href| {
      assert pathname.value == pathname.value[..|href|];
    }
  }

  /** A path sharing only a text prefix with an entry does not activate it:
      "/admin2" leaves "/admin" inactive, while "/admin/data" activates it. */
  lemma SharedTextPrefixIsNotActive()
    ensures !IsActive(Some("/admin2"), "/admin")
    ensures IsActive(Some("/admin/data"), "/admin")
  {
    ActiveMeansSegmentPrefix(Some("/admin2"), "/admin");
    assert "/admin2"[6] == '2';
    assert "/admin/data"[..7] == "/admin" + "/";
  }

  /** The menu heading: the admin label for `admin`, the employee label for
      any other role, and the loading text while no role is known. */
  function MenuTitle(role: Option<string>): (title: string)
    ensures !Truthy(role) ==> title == "Memuat menu…"
    ensures Truthy(role) && role.value == "admin" ==> title == "Menu Pilihan Admin"
    ensures Truthy(role) && role.value != "admin" ==> title == "Menu Pilihan Karyawan"
  {
    if Truthy(role) then
      if role.value == "admin" then "Menu Pilihan Admin" else "Menu Pilihan Karyawan"
    else "Memuat menu…"
  }

  /** What `GET /me` tells the header: `data?.name || ""` and `data?.role || null`;
      a failure clears both. */
  function Identity(me: Option<(Option<string>, Option<string>)>): (r: (string, Option<string>))
    ensures me.None? ==> r == ("", None)
    ensures r.1.Some? ==> r.1.value != ""
  {
    match me
    case None => ("", None)
    case Some((name, role)) => (OrElse(name, ""), if Truthy(role) then role else None)
  }

  /** The saved user as `JSON.parse(localStorage.getItem("user"))?.role` sees it. */
  datatype SavedUser = NoUser | Unparseable | Parsed(role: Option<string>)

  function SavedRole(saved: SavedUser): Option<string> {
    match saved
    case Parsed(role) => role
    case _ => None
  }

  /** `onLogout` once `POST /logout` has settled (either way): the token is
      removed, nothing else in storage changes, and the page is replaced by the
      admin sign-in when the saved role is admin or the path is under "/admin". */
  function Logout(storage: Storage, pathname: Option<string>, saved: SavedUser, logoutFailed: bool): (r: (Storage, string))
    ensures "token" !in r.0
    ensures forall k :: k != "token" ==> (k in r.0 <==> k in storage)
    ensures forall k :: k in r.0 ==> r.0[k] == storage[k]
    ensures r.1 == "/admin/sign-in" <==>
      SavedRole(saved) == Some("admin") || (pathname.Some? && StartsWith(pathname.value, "/admin"))
    ensures r.1 == "/admin/sign-in" || r.1 == "/karyawan/sign-in"
  {
    var isAdminPath := pathname.Some? && StartsWith(pathname.value, "/admin");
    var to := if SavedRole(saved) == Some("admin") || isAdminPath then "/admin/sign-in" else "/karyawan/sign-in";
    (storage - {"token"}, to)
  }

  /** Whether the logout request failed makes no difference to what follows. */
  lemma LogoutIgnoresServerAnswer(storage: Storage, pathname: Option<string>, saved: SavedUser)
    ensures Logout(storage, pathname, saved, true) == Logout(storage, pathname, saved, false)
  {
  }
}
