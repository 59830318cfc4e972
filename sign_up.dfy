/** The admin registration form: the three field checks, the address built
    from the local part, and the server's field errors mapped onto the form. */
module SignUp {
  import opened Js

  const NameError := "Nama minimal 3 karakter"
  const LocalError := "Isi bagian sebelum '@' (huruf/angka/titik/garis)"
  const PasswordError := "Password minimal 8 karakter"
  const Fallback := "Pendaftaran admin gagal."
  const Domain := "@koperasi.com"

  /** `[a-zA-Z0-9._%+-]`. */
  predicate LocalChar(c: char) {
    ('a' <= c <= 'z') || ('A' <= c <= 'Z') || IsDigit(c)
    || c == '.' || c == '_' || c == '%' || c == '+' || c == '-'
  }

  /** `/^[a-zA-Z0-9._%+-]+$/.test(s)`. */
  predicate ValidLocal(s: string) {
    s != [] && forall i :: 0 <= i < |s| ==> LocalChar(s[i])
  }

  /** Lengths are `.length`, counted in UTF-16 code units. */
  predicate NameTooShort(name: string) {
    name == "" || Utf16Length(Trim(name)) < 3
  }

  predicate PasswordTooShort(password: string) {
    password == "" || Utf16Length(password) < 8
  }

  /** Four characters above U+FFFF are eight code units, enough for a password. */
  lemma AstralPasswordIsLongEnough()
    ensures |"\U{1F600}\U{1F600}\U{1F600}\U{1F600}"| == 4
    ensures !PasswordTooShort("\U{1F600}\U{1F600}\U{1F600}\U{1F600}")
  {
    var p := "\U{1F600}\U{1F600}\U{1F600}\U{1F600}";
    assert p[1..][1..][1..][1..] == [];
    assert Utf16Length(p[1..][1..][1..]) == 2;
  }

  /** The characters `.` in a regular expression does not match. */
  predicate LineTerminator(c: char) {
    c == '\n' || c == '\r' || c == '\U{2028}' || c == '\U{2029}'
  }

  predicate NoLineTerminator(s: string) {
    forall i :: 0 <= i < |s| ==> !LineTerminator(s[i])
  }

  /** `s.replace(/@.*$/, "")`: cut at the leftmost `@` from which the rest
      of the text holds no line terminator. */
  function StripAt(s: string): (r: string)
    ensures |r| <= |s| && r == s[..|r|]
    ensures '@' !in s ==> r == s
  {
    if s == [] then []
    else if s[0] == '@' && NoLineTerminator(s[1..]) then []
    else
      var rest := StripAt(s[1..]);
      assert [s[0]] + rest == s[..|rest| + 1];
      [s[0]] + rest
  }

  /** On a one-line text the cut is at the first `@`. */
  lemma {:induction false} StripAtFirst(s: string)
    requires '@' in s && NoLineTerminator(s)
    ensures StripAt(s) == s[..IndexOf(s, '@')]
  {
    if s[0] != '@' {
      assert '@' in s[1..] by {
        var i := IndexOf(s, '@');
        assert s[1..][i - 1] == '@';
      }
      StripAtFirst(s[1..]);
      assert IndexOf(s, '@') == IndexOf(s[1..], '@') + 1;
      assert s[..IndexOf(s, '@')] == [s[0]] + s[1..][..IndexOf(s[1..], '@')];
    }
  }

  /** `${local}@koperasi.com` with `local` the input cut at `@`: the
      address ends with the domain, and what comes before it is a prefix of
      the input, all of it when the input holds no `@`. */
  function Email(emailLocal: string): (email: string)
    ensures |email| >= |Domain| && email[|email| - |Domain|..] == Domain
    ensures |email| - |Domain| <= |emailLocal|
    ensures email[..|email| - |Domain|] == emailLocal[..|email| - |Domain|]
    ensures '@' !in emailLocal ==> email == emailLocal + Domain
  {
    StripAt(emailLocal) + Domain
  }

  /** A valid local part holds no `@`, so it goes into the address unchanged,
      and the address holds exactly one `@`, right after it. */
  lemma ValidLocalEmail(s: string)
    requires ValidLocal(s)
    ensures Email(s) == s + Domain
    ensures IndexOf(Email(s), '@') == |s|
  {
    assert '@' !in s by {
      forall i | 0 <= i < |s| ensures s[i] != '@' { assert LocalChar(s[i]); }
    }
    var e := s + Domain;
    assert e[|s|] == '@';
    assert e[..|s|] == s;
    IndexOfFirst(e, '@', |s|);
  }

  /** One `POST /admin/register` body. */
  datatype Registration = Registration(name: string, email: string, password: string)

  /** `v?.[0]` on an array of messages, `String(v)` otherwise; an empty
      array gives `undefined` (None). */
  function FirstMessage(m: FieldMessages): (r: Option<string>)
    ensures m.MessageText? ==> r == Some(m.text)
    ensures m.MessageList? ==> (r.None? <==> m.list == [])
  {
    match m
    case MessageList(l) => if l == [] then None else Some(l[0])
    case MessageText(t) => Some(t)
  }

  /** The server calls the address `email`; the form calls its field `emailLocal`. */
  function FormField(field: string): (key: string)
    ensures field == "email" ==> key == "emailLocal"
    ensures field != "email" ==> key == field
  {
    if field == "email" then "emailLocal" else field
  }

  /** `Object.entries(errors)`: an array's entries are its indices, as text. */
  function EntriesOf(errors: ServerErrors): (entries: seq<(string, FieldMessages)>)
    ensures errors.ErrorObject? ==> entries == errors.entries
    ensures errors.ErrorArray? ==>
      && |entries| == |errors.items|
      && forall i :: 0 <= i < |entries| ==> entries[i] == (NatToString(i), MessageText(errors.items[i]))
  {
    match errors
    case ErrorObject(entries) => entries
    case ErrorArray(items) => seq(|items|, i requires 0 <= i < |items| => (NatToString(i), MessageText(items[i])))
  }

  /** The form errors after the entries are written in order; a later entry
      for the same form field overwrites an earlier one. */
  function FormErrors(entries: seq<(string, FieldMessages)>): (m: map<string, Option<string>>)
    ensures forall k :: k in m <==> exists i :: 0 <= i < |entries| && FormField(entries[i].0) == k
  {
    if entries == [] then map[]
    else
      var n := |entries| - 1;
      var front := FormErrors(entries[..n]);
      assert forall i :: 0 <= i < n ==> entries[..n][i] == entries[i];
      front[FormField(entries[n].0) := FirstMessage(entries[n].1)]
  }

  /** The value a form field gets is the first message of the last entry that
      maps to it. */
  lemma {:induction false} FormErrorsLastWins(entries: seq<(string, FieldMessages)>, i: nat)
    requires i < |entries|
    requires forall j :: i < j < |entries| ==> FormField(entries[j].0) != FormField(entries[i].0)
    ensures FormErrors(entries)[FormField(entries[i].0)] == FirstMessage(entries[i].1)
  {
    var n := |entries| - 1;
    var front := entries[..n];
    assert FormErrors(entries) == FormErrors(front)[FormField(entries[n].0) := FirstMessage(entries[n].1)];
    if i < n {
      assert front[i] == entries[i];
      assert forall j :: i < j < |front| ==> front[j] == entries[j];
      FormErrorsLastWins(front, i);
      assert FormField(entries[n].0) != FormField(entries[i].0);
    }
  }

  /** The server's `email` errors show on the `emailLocal` field, and no
      `email` entry is left on the form. */
  lemma EmailErrorsShowOnLocalField(entries: seq<(string, FieldMessages)>)
    requires forall i :: 0 <= i < |entries| ==> entries[i].0 != "emailLocal"
    ensures "email" !in FormErrors(entries)
    ensures forall i ::
      (0 <= i < |entries| && entries[i].0 == "email" && (forall j :: i < j < |entries| ==> entries[j].0 != "email"))
      ==> FormErrors(entries)["emailLocal"] == FirstMessage(entries[i].1)
  {
    forall i | 0 <= i < |entries| && entries[i].0 == "email"
      && (forall j :: i < j < |entries| ==> entries[j].0 != "email")
      ensures FormErrors(entries)["emailLocal"] == FirstMessage(entries[i].1)
    {
      FormErrorsLastWins(entries, i);
    }
  }

  /** `forEach(([field, msgs]) => serverErrors[key] = first)`. */
  method MapServerErrors(entries: seq<(string, FieldMessages)>) returns (m: map<string, Option<string>>)
    ensures m == FormErrors(entries)
  {
    m := map[];
    for i := 0 to |entries|
      invariant m == FormErrors(entries[..i])
    {
      assert entries[..i + 1][..i] == entries[..i];
      m := m[FormField(entries[i].0) := FirstMessage(entries[i].1)];
    }
    assert entries[..|entries|] == entries;
  }

  /** The form errors a failed registration shows: the server's field errors
      when it sent any (even none at all), else one general message. */
  function FailureErrors(e: HttpError): (m: map<string, Option<string>>)
    ensures e.errors.None? ==> m.Keys == {"general"} && m["general"].Some? && m["general"].value != ""
  {
    if e.errors.Some? then FormErrors(EntriesOf(e.errors.value))
    else map["general" := Some(ServerMessage(e, Fallback))]
  }

  /** The messages of `validate()`: one per failing field, under the
      field's name; none at all exactly when every check passes. */
  function FieldErrors(name: string, emailLocal: string, password: string): (e: map<string, Option<string>>)
    ensures "name" in e <==> NameTooShort(name)
    ensures "emailLocal" in e <==> !ValidLocal(emailLocal)
    ensures "password" in e <==> PasswordTooShort(password)
    ensures e.Keys <= {"name", "emailLocal", "password"}
    ensures "name" in e ==> e["name"] == Some(NameError)
    ensures "emailLocal" in e ==> e["emailLocal"] == Some(LocalError)
    ensures "password" in e ==> e["password"] == Some(PasswordError)
    ensures e == map[] <==> !NameTooShort(name) && ValidLocal(emailLocal) && !PasswordTooShort(password)
  {
    var e1: map<string, Option<string>> := if NameTooShort(name) then map["name" := Some(NameError)] else map[];
    var e2 := if !ValidLocal(emailLocal) then e1["emailLocal" := Some(LocalError)] else e1;
    if PasswordTooShort(password) then e2["password" := Some(PasswordError)] else e2
  }

  /** The registration form; `errors` maps a field to its message, `undefined`
      being None. */
  class SignUpForm {
    var name: string
    var emailLocal: string
    var password: string
    var errors: map<string, Option<string>>
    var destination: Option<string>

    constructor ()
      ensures name == "" && emailLocal == "" && password == ""
      ensures errors == map[] && destination == None
    {
      name, emailLocal, password := "", "", "";
      errors, destination := map[], None;
    }

    /** The inputs pass all three checks. */
    predicate Valid()
      reads this
    {
      !NameTooShort(name) && ValidLocal(emailLocal) && !PasswordTooShort(password)
    }

    /** `validate()`: records the messages of the failing fields and
        answers whether none failed. */
    method Validate() returns (ok: bool)
      modifies this`errors
      ensures errors == FieldErrors(name, emailLocal, password)
      ensures ok <==> Valid()
    {
      var e := FieldErrors(name, emailLocal, password);
      errors := e;
      ok := |e.Keys| == 0;
      assert ok <==> e == map[] by {
        if e != map[] {
          var k :| k in e;
          assert k in e.Keys;
        }
      }
    }

    /** `onSubmit`: nothing is sent unless the inputs are valid; a success
      replaces the page with the sign-in page; a failure shows the server's
      field errors, or one general message. */
    method Submit(failure: Option<HttpError>) returns (request: Option<Registration>)
      modifies this`errors, this`destination
      ensures request.Some? <==> old(Valid())
      ensures request.Some? ==> request.value == Registration(name, Email(emailLocal), password)
      ensures request.None? ==> destination == old(destination) && errors == FieldErrors(name, emailLocal, password)
      ensures request.Some? && failure.None? ==> destination == Some("/admin/sign-in") && errors == map[]
      ensures request.Some? && failure.Some? ==> destination == old(destination)
      ensures request.Some? && failure.Some? ==> errors == FailureErrors(failure.value)
    {
      var ok := Validate();
      if !ok {
        return None;
      }
      request := Some(Registration(name, Email(emailLocal), password));
      match failure {
        case None =>
          destination := Some("/admin/sign-in");
        case Some(err) =>
          if err.errors.Some? {
            errors := MapServerErrors(EntriesOf(err.errors.value));
          } else {
            errors := FailureErrors(err);
          }
      }
    }
  }
}
