/** The route guard around every signed-in page: it needs a stored token and
    a `/me` answer whose role the page allows, and otherwise sends the user
    away. */
module AuthGuard {
  import opened Js
  import SignIn

  /** `pathname.startsWith("/admin") ? "admin" : "karyawan"`. */
  function BasePath(pathname: string): (base: string)
    ensures base == "admin" <==> StartsWith(pathname, "/admin")
    ensures base == "admin" || base == "karyawan"
  {
    if StartsWith(pathname, "/admin") then "admin" else "karyawan"
  }

  function SignInPage(pathname: string): string {
    "/" + BasePath(pathname) + "/sign-in"
  }

  /** `localStorage.getItem("token")` is truthy. */
  predicate HasToken(storage: Storage) {
    "token" in storage && storage["token"] != ""
  }

  /** How `GET /me` settled: the `role` it returned, or a failure. */
  datatype MeReply = MeOk(role: Option<string>) | MeFailed

  /** `allow.includes(data.role)`. */
  predicate Allowed(allow: seq<string>, role: Option<string>) {
    role.Some? && role.value in allow
  }

  class Guard {
    /** Whether the children are shown. */
    var ok: bool
    var storage: Storage
    /** Where the page was replaced to, if anywhere. */
    var redirect: Option<string>
    /** Whether `GET /me` was asked. */
    var askedMe: bool

    constructor (storage0: Storage)
      ensures !ok && storage == storage0 && redirect == None && !askedMe
    {
      ok, storage, redirect, askedMe := false, storage0, None, false;
    }

    /** The effect: no token sends the user to the sign-in page of the area
        they are in without asking `/me`; a failed `/me` also drops the token;
        a role the page does not allow is sent to that role's home; an allowed
        role shows the children. */
    method Check(pathname: string, allow: seq<string>, me: MeReply)
      modifies this
      requires !ok && redirect == None && !askedMe
      ensures askedMe <==> HasToken(old(storage))
      ensures ok <==> HasToken(old(storage)) && me.MeOk? && Allowed(allow, me.role)
      ensures ok ==> redirect == None
      ensures !HasToken(old(storage)) ==> redirect == Some(SignInPage(pathname)) && storage == old(storage)
      ensures HasToken(old(storage)) && me.MeFailed? ==>
        redirect == Some(SignInPage(pathname)) && storage == old(storage) - {"token"}
      ensures HasToken(old(storage)) && me.MeOk? ==> storage == old(storage)
      ensures HasToken(old(storage)) && me.MeOk? && !Allowed(allow, me.role) ==>
        redirect == Some(SignIn.Home(me.role))
    {
      if !HasToken(storage) {
        redirect := Some(SignInPage(pathname));
        return;
      }
      askedMe := true;
      match me {
        case MeFailed =>
          storage := storage - {"token"};
          redirect := Some(SignInPage(pathname));
        case MeOk(role) =>
          if !Allowed(allow, role) {
            redirect := Some(SignIn.Home(role));
            return;
          }
          ok := true;
      }
    }
  }

  /** A signed-in user sent away for their role lands on their own home page,
      which the default allow list (`["admin", "karyawan"]`) accepts. */
  lemma RoleHomeIsAdmitted(role: Option<string>)
    requires role == Some("admin") || role == Some("karyawan")
    ensures BasePath(SignIn.Home(role)) == (if role == Some("admin") then "admin" else "karyawan")
    ensures Allowed(["admin", "karyawan"], role)
  {
    assert StartsWith("/admin", "/admin");
    if role == Some("karyawan") {
      assert !StartsWith("/karyawan", "/admin") by { assert "/karyawan"[1] != "/admin"[1]; }
    }
  }
}
