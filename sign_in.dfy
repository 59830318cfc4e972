/** The two sign-in forms (admin and employee), which follow the same rules:
    both fields are required, a bare local part gets the company domain, the
    token is stored and the user's role picks the home page. */
module SignIn {
  import opened Js
  import SignUp

  const Required := "Email dan password wajib diisi."
  const Fallback := "Login gagal. Periksa kredensial Anda."

  /** `raw.includes("@") ? raw : `${raw}@koperasi.com`` with `raw` the trimmed input. */
  function CompleteEmail(input: string): (email: string)
    ensures '@' in email
    ensures '@' in Trim(input) ==> email == Trim(input)
    ensures '@' !in Trim(input) ==> email == Trim(input) + SignUp.Domain
  {
    var raw := Trim(input);
    if '@' in raw then raw
    else
      assert (raw + SignUp.Domain)[|raw|] == '@';
      raw + SignUp.Domain
  }

  /** Completing an address that is already complete changes nothing. */
  lemma CompleteEmailIdempotent(input: string)
    ensures CompleteEmail(CompleteEmail(input)) == CompleteEmail(input)
  {
    var raw := Trim(input);
    if '@' !in raw {
      AppendedDomainIsTrimmed(raw);
    } else {
      TrimUnchanged(raw);
    }
  }

  lemma AppendedDomainIsTrimmed(raw: string)
    requires raw == [] || !IsJsSpace(raw[0])
    ensures Trim(raw + SignUp.Domain) == raw + SignUp.Domain
  {
    var email := raw + SignUp.Domain;
    assert email[|email| - 1] == 'm';
    assert email[0] == if raw == [] then '@' else raw[0];
    TrimUnchanged(email);
  }

  /** The address an admin registers with a valid local part is the one
      signing in with that local part (or with the full address) logs into. */
  lemma RegisteredAddressSignsIn(local: string)
    requires SignUp.ValidLocal(local)
    ensures CompleteEmail(local) == SignUp.Email(local)
    ensures CompleteEmail(SignUp.Email(local)) == SignUp.Email(local)
  {
    SignUp.ValidLocalEmail(local);
    assert '@' !in local by {
      forall i | 0 <= i < |local| ensures local[i] != '@' { assert SignUp.LocalChar(local[i]); }
    }
    assert !IsJsSpace(local[0]) && !IsJsSpace(local[|local| - 1]) by {
      assert SignUp.LocalChar(local[0]) && SignUp.LocalChar(local[|local| - 1]);
    }
    TrimUnchanged(local);
    CompleteEmailIdempotent(local);
  }

  /** `role === "admin" ? "/admin" : "/karyawan"`. */
  function Home(role: Option<string>): (path: string)
    ensures path == "/admin" <==> role == Some("admin")
    ensures path == "/admin" || path == "/karyawan"
  {
    if role == Some("admin") then "/admin" else "/karyawan"
  }

  /** The `POST /login` body. */
  datatype Credentials = Credentials(email: string, password: string)

  /** How the login request settled: the `token` and `user.role` it returned,
      or the rejection. */
  datatype LoginReply = LoginOk(token: Option<string>, role: Option<string>) | LoginFailed(error: HttpError)

  /** The form after a submit: the error line, the request (if one was sent),
      the storage and where the page was replaced to. */
  datatype Outcome = Outcome(err: string, request: Option<Credentials>, storage: Storage, destination: Option<string>)

  /** `localStorage.setItem("token", data.token)` stores `String(data.token)`. */
  function StoredText(token: Option<string>): string {
    Coalesce(token, "undefined")
  }

  /** `onSubmit` of either sign-in form, with `reply` what `POST /login` answered. */
  function Submit(emailInput: string, password: string, storage: Storage, reply: LoginReply): (o: Outcome)
    ensures o.request.None? <==> emailInput == "" || password == ""
    ensures o.request.None? ==> o.err == Required && o.storage == storage && o.destination == None
    ensures o.request.Some? ==> o.request.value == Credentials(CompleteEmail(emailInput), password)
    ensures o.request.Some? && reply.LoginOk? ==>
      && o.err == ""
      && o.storage == storage["token" := StoredText(reply.token)]
      && o.destination == Some(Home(reply.role))
    ensures o.request.Some? && reply.LoginFailed? ==>
      && o.err != ""
      && o.err == ServerMessage(reply.error, Fallback)
      && o.storage == storage
      && o.destination == None
  {
    if emailInput == "" || password == "" then Outcome(Required, None, storage, None)
    else
      var request := Some(Credentials(CompleteEmail(emailInput), password));
      match reply
      case LoginOk(token, role) => Outcome("", request, storage["token" := StoredText(token)], Some(Home(role)))
      case LoginFailed(e) => Outcome(ServerMessage(e, Fallback), request, storage, None)
  }

  /** After a successful login a token is present, so the route guard lets the
      user through to the `/me` check instead of back to sign-in. */
  lemma SuccessfulLoginLeavesToken(emailInput: string, password: string, storage: Storage, token: string, role: Option<string>)
    requires emailInput != "" && password != "" && token != ""
    ensures var o := Submit(emailInput, password, storage, LoginOk(Some(token), role));
      "token" in o.storage && o.storage["token"] == token
  {
  }
}
