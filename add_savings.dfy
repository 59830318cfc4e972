/** The admin form that records a savings deposit: the amount texts are read
    as money, the year of the chosen date picks the dividend preview, and a
    save sends one request per positive amount. */
module AddSavings {
  import opened Js

  /** The characters a money text is cleaned down to. */
  predicate MoneyChar(c: char) {
    IsDigit(c) || c == '.' || c == ',' || c == '-'
  }

  predicate MoneyText(s: string) {
    forall i :: 0 <= i < |s| ==> MoneyChar(s[i])
  }

  /** `String(s).replace(/[^\d.,-]/g, "")`. */
  function CleanMoney(s: string): (r: string)
    ensures MoneyText(r)
    ensures forall c :: c in r <==> c in s && MoneyChar(c)
    ensures MoneyText(s) ==> r == s
  {
    if s == [] then [] else (if MoneyChar(s[0]) then [s[0]] else []) + CleanMoney(s[1..])
  }

  lemma DropAllKeepsMoney(s: string, c: char)
    requires MoneyText(s)
    ensures MoneyText(DropAll(s, c))
  {
    var r := DropAll(s, c);
    DropAllMembers(s, c);
    forall i | 0 <= i < |r|
      ensures MoneyChar(r[i])
    {
      assert r[i] in r;
    }
  }

  /** `Number(t)` on a cleaned money text: a comma still in it makes NaN. */
  function NumberOfMoney(t: string): (n: Num)
    requires MoneyText(t)
    ensures ',' in t ==> n == NonFinite
  {
    if ',' in t then NonFinite else NumberOf(t)
  }

  /** `x || 0` on a number. The texts above never overflow, so the only
      non-finite value they give is NaN, which is falsy. */
  function OrZero(n: Num): real {
    if n.Finite? then n.value else 0.0
  }

  /** The comma is taken for the decimal separator: one occurs after the last dot. */
  predicate DecimalComma(c: string) {
    ',' in c && LastIndexOf(c, ',') > LastIndexOf(c, '.')
  }

  /** The decimal-comma reading: dots dropped, the first comma made a point. */
  function CommaReading(c: string): real
    requires MoneyText(c)
  {
    var t := DropAll(c, '.');
    DropAllKeepsMoney(c, '.');
    OrZero(NumberOfMoney(ReplaceFirst(t, ',', '.')))
  }

  /** The decimal-point reading: commas dropped. */
  function PointReading(c: string): real
    requires MoneyText(c)
  {
    DropAllKeepsMoney(c, ',');
    OrZero(NumberOfMoney(DropAll(c, ',')))
  }

  /** `parseMoney(s)`: 0 for an empty text, otherwise the cleaned text read with
      a decimal comma when a comma follows the last dot, else with a decimal point. */
  function ParseMoney(s: string): (v: real)
    ensures s == "" ==> v == 0.0
  {
    if s == "" then 0.0
    else
      var c := CleanMoney(s);
      if DecimalComma(c) then CommaReading(c) else PointReading(c)
  }

  /** Only the digits, dots, commas and minus signs of a text count: the
      amount read from it is the amount read from its cleaned form. */
  lemma ParseMoneyReadsCleanedText(s: string)
    ensures ParseMoney(s) == ParseMoney(CleanMoney(s))
  {
    var c := CleanMoney(s);
    assert CleanMoney(c) == c;
    if s != "" && c == "" {
      assert !DecimalComma(c);
      assert DropAll(c, ',') == "";
    }
  }

  /** A cleaned text without commas is read by `Number` directly. */
  lemma ParseMoneyNoComma(s: string)
    requires s != "" && MoneyText(s) && ',' !in s
    ensures forall i :: 0 <= i < |s| ==> NumberChar(s[i])
    ensures ParseMoney(s) == OrZero(NumberOf(s))
  {
    assert CleanMoney(s) == s;
    assert !DecimalComma(s);
    DropAllAbsent(s, ',');
    forall i | 0 <= i < |s| ensures NumberChar(s[i]) {
      assert s[i] in s;
    }
  }

  /** A whole number typed without separators is read as itself. */
  lemma ParseMoneyWhole(n: nat)
    ensures ParseMoney(NatToString(n)) == n as real
  {
    var s := NatToString(n);
    assert ',' !in s by {
      forall i | 0 <= i < |s| ensures s[i] != ',' { assert IsDigit(s[i]); }
    }
    ParseMoneyNoComma(s);
    NumberOfDigits(s);
  }

  /** `String(m).padStart(3, "0")` for a group below 1000. */
  function Pad3(m: nat): (s: string)
    requires m < 1000
    ensures |s| == 3 && AllDigits(s) && DigitsValue(s) == m
  {
    var a, b, c := m / 100, m / 10 % 10, m % 10;
    ThreeDigits(m, a, b, c);
    var s := [DigitChar(a), DigitChar(b), DigitChar(c)];
    assert s[..2] == [s[0], s[1]] && s[..2][..1] == [s[0]] && [s[0]][..0] == [];
    assert DigitsValue([s[0]]) == a;
    assert DigitsValue(s[..2]) == a * 10 + b;
    s
  }

  /** The three decimal digits of a number below 1000. */
  lemma ThreeDigits(m: nat, a: nat, b: nat, c: nat)
    requires m < 1000 && a == m / 100 && b == m / 10 % 10 && c == m % 10
    ensures a < 10 && b < 10 && c < 10 && (a * 10 + b) * 10 + c == m
  {
  }

  /** A whole number as the id-ID locale writes it: groups of three digits
      separated by dots ("1.000.000"). */
  function IdGroups(n: nat): (s: string)
    ensures s != [] && IsDigit(s[0])
    ensures forall i :: 0 <= i < |s| ==> IsDigit(s[i]) || s[i] == '.'
    ensures n < 1000 ==> s == NatToString(n)
  {
    if n < 1000 then NatToString(n)
    else
      var s := IdGroups(n / 1000) + "." + Pad3(n % 1000);
      assert s[0] == IdGroups(n / 1000)[0];
      s
  }

  /** Without its dots the id-ID form is the number's digits. */
  lemma {:induction false} IdGroupsDigits(n: nat)
    ensures AllDigits(DropAll(IdGroups(n), '.'))
    ensures DropAll(IdGroups(n), '.') != []
    ensures DigitsValue(DropAll(IdGroups(n), '.')) == n
  {
    if n < 1000 {
      DigitsHaveNoSeparator(NatToString(n));
      DropAllAbsent(NatToString(n), '.');
    } else {
      var head := IdGroups(n / 1000);
      var p := Pad3(n % 1000);
      IdGroupsDigits(n / 1000);
      DropDotBeforeGroup(head, p);
      var d := DropAll(head, '.');
      DigitsValueAppend(d, p);
      assert Pow10(3) == 1000;
    }
  }

  lemma DropDotBeforeGroup(head: string, p: string)
    requires AllDigits(p)
    ensures DropAll(head + "." + p, '.') == DropAll(head, '.') + p
  {
    DigitsHaveNoSeparator(p);
    DropAllAbsent(p, '.');
    var x := DropAll(head, '.');
    assert DropAll(head + ".", '.') == x by {
      DropAllAppend(head, ".", '.');
      assert DropAll(".", '.') == "";
      assert x + "" == x;
    }
    DropAllAppend(head + ".", p, '.');
  }

  /** An id-ID amount with a two-digit decimal comma ("1.000.000,50") is read
      as its value: the dots are dropped as thousands separators and the comma
      becomes the decimal point. */
  lemma ParseMoneyDecimalComma(n: nat, cents: nat)
    requires cents < 100
    ensures ParseMoney(IdGroups(n) + "," + Pad2(cents)) == n as real + cents as real / 100.0
  {
    var g, f := IdGroups(n), Pad2(cents);
    var d := DropAll(g, '.');
    IdGroupsDigits(n);
    CommaAfterGroups(g, f);
    assert ParseMoney(g + "," + f) == CommaReading(g + "," + f);
    CommaReadingOfDigits(g + "," + f, d, f);
    Hundredths(d, f, n, cents);
  }

  /** A text of digit groups, a comma and digits is clean, takes the comma
      for the decimal separator, and loses only the dots of its groups. */
  lemma CommaAfterGroups(g: string, f: string)
    requires forall i :: 0 <= i < |g| ==> IsDigit(g[i]) || g[i] == '.'
    requires AllDigits(f)
    ensures MoneyText(g + "," + f)
    ensures CleanMoney(g + "," + f) == g + "," + f
    ensures DecimalComma(g + "," + f)
    ensures DropAll(g + "," + f, '.') == DropAll(g, '.') + "," + f
  {
    GroupsCommaIsMoney(g, f);
    LastSeparators(g, f);
    DropDotsBeforeComma(g, f);
  }

  lemma GroupsCommaIsMoney(g: string, f: string)
    requires forall i :: 0 <= i < |g| ==> IsDigit(g[i]) || g[i] == '.'
    requires AllDigits(f)
    ensures MoneyText(g + "," + f)
  {
    var s := g + "," + f;
    forall i | 0 <= i < |s| ensures MoneyChar(s[i]) {
      if i < |g| { assert s[i] == g[i]; } else if i > |g| { assert s[i] == f[i - |g| - 1]; }
    }
  }

  /** After the comma only digits follow: the comma is the last one and
      every dot comes before it. */
  lemma LastSeparators(g: string, f: string)
    requires AllDigits(f)
    ensures LastIndexOf(g + "," + f, ',') == |g|
    ensures LastIndexOf(g + "," + f, '.') < |g|
  {
    var s := g + "," + f;
    assert s[|g|] == ',';
    NoSeparatorAfterComma(g, f);
    var i, k := LastIndexOf(s, ','), LastIndexOf(s, '.');
    assert i >= |g|;
    assert k != |g|;
  }

  lemma NoSeparatorAfterComma(g: string, f: string)
    requires AllDigits(f)
    ensures forall j :: |g| < j < |g + "," + f| ==> (g + "," + f)[j] != ',' && (g + "," + f)[j] != '.'
  {
    var s := g + "," + f;
    forall j | |g| < j < |s| ensures s[j] != ',' && s[j] != '.' {
      assert s[j] == f[j - |g| - 1];
    }
  }

  lemma DropDotsBeforeComma(g: string, f: string)
    requires AllDigits(f)
    ensures DropAll(g + "," + f, '.') == DropAll(g, '.') + "," + f
  {
    DigitsHaveNoSeparator(f);
    DropAllAbsent(f, '.');
    var x := DropAll(g, '.');
    assert DropAll(g + ",", '.') == x + "," by {
      DropAllAppend(g, ",", '.');
      assert DropAll(",", '.') == ",";
    }
    DropAllAppend(g + ",", f, '.');
  }

  /** The decimal-comma reading of a text whose dots drop out to leave
      digits, a comma and digits: the comma becomes the decimal point. */
  lemma CommaReadingOfDigits(c: string, d: string, f: string)
    requires MoneyText(c) && DropAll(c, '.') == d + "," + f
    requires d != [] && AllDigits(d) && AllDigits(f)
    ensures CommaReading(c) == DecimalValue(d, f)
  {
    DigitsHaveNoSeparator(d);
    DigitsHaveNoSeparator(f);
    assert (d + "," + f)[|d|] == ',';
    IndexOfFirst(d + "," + f, ',', |d|);
    assert ReplaceFirst(d + "," + f, ',', '.') == d + "." + f by {
      assert (d + "," + f)[..|d|] == d;
      assert (d + "," + f)[|d| + 1..] == f;
    }
    NumberOfPointed(d, f);
    assert ',' !in d + "." + f by {
      forall i | 0 <= i < |d + "." + f| ensures (d + "." + f)[i] != ',' {
        assert NumberChar((d + "." + f)[i]);
      }
    }
  }

  /** Digits, a point and digits are read as the whole part plus the fraction. */
  lemma ParseMoneyPointed(w: string, f: string)
    requires w != [] && AllDigits(w) && AllDigits(f)
    ensures ParseMoney(w + "." + f) == DecimalValue(w, f)
  {
    var s := w + "." + f;
    NumberOfPointed(w, f);
    assert ',' !in s by {
      forall i | 0 <= i < |s| ensures s[i] != ',' { assert NumberChar(s[i]); }
    }
    ParseMoneyNoComma(s);
  }

  /** A decimal value whose fraction has two digits, by its known parts. */
  lemma Hundredths(w: string, f: string, n: nat, cents: nat)
    requires AllDigits(w) && AllDigits(f) && |f| == 2
    requires DigitsValue(w) == n && DigitsValue(f) == cents
    ensures DecimalValue(w, f) == n as real + cents as real / 100.0
  {
    assert Pow10(|f|) == 100;
  }

  /** A decimal value whose fraction has three digits, by its known parts. */
  lemma Thousandths(w: string, f: string, n: nat, m: nat)
    requires AllDigits(w) && AllDigits(f) && |f| == 3
    requires DigitsValue(w) == n && DigitsValue(f) == m
    ensures DecimalValue(w, f) == n as real + m as real / 1000.0
  {
    assert Pow10(|f|) == 1000;
  }

  /** A whole number with a decimal point and two digits ("1500.50") is read
      as its value. */
  lemma ParseMoneyDecimalPoint(n: nat, cents: nat)
    requires cents < 100
    ensures ParseMoney(NatToString(n) + "." + Pad2(cents)) == n as real + cents as real / 100.0
  {
    var w, f := NatToString(n), Pad2(cents);
    ParseMoneyPointed(w, f);
    Hundredths(w, f, n, cents);
  }

  /** Thousands separators without a decimal part are not recognised. With
      one dot it is read as a decimal point: "50.000" is read as fifty. */
  lemma ParseMoneyOneGroupAsWritten(n: nat)
    requires 1000 <= n < 1000000
    ensures ParseMoney(IdGroups(n)) == (n / 1000) as real + (n % 1000) as real / 1000.0
  {
    var w, f := NatToString(n / 1000), Pad3(n % 1000);
    assert IdGroups(n) == w + "." + f;
    ParseMoneyPointed(w, f);
    Thousandths(w, f, n / 1000, n % 1000);
  }

  /** With two dots or more the text is not a number at all, and the amount
      read is 0: "1.000.000" is read as nothing. */
  lemma ParseMoneyTwoGroupsAsWritten(n: nat)
    requires n >= 1000000
    ensures ParseMoney(IdGroups(n)) == 0.0
  {
    var head := IdGroups(n / 1000);
    var s := IdGroups(n);
    assert s == head + "." + Pad3(n % 1000);
    var inner := IdGroups(n / 1000 / 1000);
    assert head == inner + "." + Pad3(n / 1000 % 1000);
    assert s[|inner|] == '.' by { assert s[|inner|] == head[|inner|]; }
    assert s[|head|] == '.';
    GroupsAreMoney(s);
    ParseMoneyNoComma(s);
    NumberOfTwoDots(s, |inner|, |head|);
  }

  /** Digits and dots only: a clean text with no comma. */
  lemma GroupsAreMoney(g: string)
    requires forall i :: 0 <= i < |g| ==> IsDigit(g[i]) || g[i] == '.'
    ensures MoneyText(g) && ',' !in g
  {
    assert forall i :: 0 <= i < |g| ==> g[i] != ',';
  }

  /** A text starting with a digit and holding two dots is not a number. */
  lemma NumberOfTwoDots(s: string, i: nat, j: nat)
    requires forall k :: 0 <= k < |s| ==> NumberChar(s[k])
    requires i < j < |s| && s[i] == '.' && s[j] == '.' && IsDigit(s[0])
    ensures NumberOf(s) == NonFinite
  {
    var first := IndexOf(s, '.');
    IndexOfAtMost(s, '.', i);
    assert s[first + 1..][j - first - 1] == '.';
  }

  /** The dots of a text written in id-ID groups: a leading run of digits,
      then groups of exactly three digits, each after a dot. */
  predicate ThousandsGrouped(c: string) {
    var parts := Split(c, '.');
    |parts| >= 2 && parts[0] != [] && AllDigits(parts[0])
    && forall i :: 1 <= i < |parts| ==> |parts[i]| == 3 && AllDigits(parts[i])
  }

  /** The reading with grouped thousands recognised: a text without a comma
      whose dots separate groups of three digits has its dots dropped;
      every other text is read as before. */
  function ParseMoneyGrouped(s: string): (v: real)
    ensures s == "" ==> v == 0.0
    ensures (s == "" || ',' in CleanMoney(s) || !ThousandsGrouped(CleanMoney(s))) ==> v == ParseMoney(s)
  {
    if s == "" then 0.0
    else
      var c := CleanMoney(s);
      if ',' !in c && ThousandsGrouped(c) then
        DropAllKeepsMoney(c, '.');
        OrZero(NumberOfMoney(DropAll(c, '.')))
      else ParseMoney(s)
  }

  /** The pieces of an id-ID number split at its dots: a leading group and
      then groups of three digits, one more piece per thousand factor. */
  lemma {:induction false} IdGroupsSplit(n: nat)
    ensures var parts := Split(IdGroups(n), '.');
      && parts[0] != [] && AllDigits(parts[0])
      && (forall i :: 1 <= i < |parts| ==> |parts[i]| == 3 && AllDigits(parts[i]))
      && (|parts| >= 2 <==> n >= 1000)
  {
    if n < 1000 {
      DigitsHaveNoSeparator(NatToString(n));
    } else {
      var p := Pad3(n % 1000);
      DigitsHaveNoSeparator(p);
      IdGroupsSplit(n / 1000);
      SplitSnoc(IdGroups(n / 1000), '.', p);
      assert IdGroups(n) == IdGroups(n / 1000) + ['.'] + p;
    }
  }

  /** With grouped thousands recognised, every whole amount in id-ID form is
      read as itself ("1.000.000" as one million, "50.000" as fifty thousand). */
  lemma ParseMoneyGroupedWhole(n: nat)
    ensures ParseMoneyGrouped(IdGroups(n)) == n as real
  {
    var g := IdGroups(n);
    GroupsAreMoney(g);
    assert CleanMoney(g) == g;
    IdGroupsSplit(n);
    if n < 1000 {
      ParseMoneyWhole(n);
    } else {
      assert ThousandsGrouped(g);
      GroupedDigitsValue(g, n);
    }
  }

  /** Dropping the dots of the id-ID form of `n` leaves a number worth `n`. */
  lemma GroupedDigitsValue(g: string, n: nat)
    requires g == IdGroups(n) && MoneyText(g)
    ensures MoneyText(DropAll(g, '.'))
    ensures OrZero(NumberOfMoney(DropAll(g, '.'))) == n as real
  {
    IdGroupsDigits(n);
    DropAllKeepsMoney(g, '.');
    var d := DropAll(g, '.');
    DigitsHaveNoSeparator(d);
    assert ',' !in d by {
      forall i | 0 <= i < |d| ensures d[i] != ',' { assert IsDigit(d[i]); }
    }
    NumberOfDigits(d);
  }

  /** `<input type="date">` holds either nothing or a date starting with a
      four-digit year. */
  predicate DateValue(tanggal: string) {
    tanggal == "" || (|tanggal| >= 4 && AllDigits(tanggal[..4]))
  }

  /** `tanggal ? Number(tanggal.slice(0, 4)) : null`: null for no date,
      otherwise the number its first four digits write. */
  function Year(tanggal: string): (y: Option<Num>)
    requires DateValue(tanggal)
    ensures y.None? <==> tanggal == ""
    ensures y.Some? ==> y.value.Finite? && y.value.value == DigitsValue(tanggal[..4]) as real
    ensures y.Some? ==> 0.0 <= y.value.value < 10000.0
  {
    if tanggal == "" then None
    else
      var digits := Take(tanggal, 4);
      NumberOfDigits(digits);
      DigitsValueBound(digits);
      assert Pow10(4) == 10000;
      Some(NumberOf(digits))
  }

  /** The dividend preview request `{ year, user_id }`, or None when no
      employee is picked or the year is falsy (no date, or year 0). */
  function DividendQuery(userId: string, tanggal: string): (q: Option<(real, string)>)
    requires DateValue(tanggal)
    ensures q.Some? <==> userId != "" && tanggal != "" && DigitsValue(tanggal[..4]) != 0
    ensures q.Some? ==> q.value == (DigitsValue(tanggal[..4]) as real, userId)
  {
    var y := Year(tanggal);
    if userId == "" || y.None? || y.value.value == 0.0 then None
    else Some((y.value.value, userId))
  }

  /** One `POST /savings` body. */
  datatype SavingPost = SavingPost(userId: string, kind: string, month: string, amount: real)

  /** What pressing save does before any request settles: an alert that
      refuses it, or the requests it sends together. */
  datatype SavePlan = Refused(message: string) | Posts(posts: seq<SavingPost>)

  const NoEmployee := "Pilih karyawan dulu."
  const NoDate := "Isi tanggal dulu."
  const NoAmount := "Isi nominal simpanan wajib atau pokok (salah satu / keduanya)."

  /** The requests for the two amounts: one per positive amount, the
      compulsory ("wajib") one first. */
  method PlanPosts(userId: string, tanggal: string, amountWajib: real, amountPokok: real)
    returns (posts: seq<SavingPost>)
    ensures |posts| == (if amountWajib > 0.0 then 1 else 0) + (if amountPokok > 0.0 then 1 else 0)
    ensures amountWajib > 0.0 <==> SavingPost(userId, "wajib", tanggal, amountWajib) in posts
    ensures amountPokok > 0.0 <==> SavingPost(userId, "pokok", tanggal, amountPokok) in posts
    ensures forall i :: 0 <= i < |posts| ==>
      posts[i].userId == userId && posts[i].month == tanggal && posts[i].amount > 0.0
    ensures amountWajib > 0.0 ==> posts[0] == SavingPost(userId, "wajib", tanggal, amountWajib)
  {
    var w := SavingPost(userId, "wajib", tanggal, amountWajib);
    var p := SavingPost(userId, "pokok", tanggal, amountPokok);
    assert w != p by { assert w.kind[0] != p.kind[0]; }
    posts := [];
    if amountWajib > 0.0 {
      posts := posts + [w];
    }
    if amountPokok > 0.0 {
      posts := posts + [p];
    }
  }

  /** `onSave` up to `Promise.all`: the checks in order, then the requests,
      with the amounts read by the corrected `ParseMoneyGrouped`. */
  method PlanSave(userId: string, tanggal: string, wajib: string, pokok: string) returns (plan: SavePlan)
    ensures userId == "" ==> plan == Refused(NoEmployee)
    ensures userId != "" && tanggal == "" ==> plan == Refused(NoDate)
    ensures userId != "" && tanggal != "" ==>
      (plan.Refused? <==> ParseMoneyGrouped(wajib) <= 0.0 && ParseMoneyGrouped(pokok) <= 0.0)
    ensures plan.Refused? && userId != "" && tanggal != "" ==> plan.message == NoAmount
    ensures plan.Posts? ==> plan.posts != [] && forall i :: 0 <= i < |plan.posts| ==>
      plan.posts[i].userId == userId && plan.posts[i].month == tanggal && plan.posts[i].amount > 0.0
    ensures plan.Posts? ==>
      && (ParseMoneyGrouped(wajib) > 0.0 <==> SavingPost(userId, "wajib", tanggal, ParseMoneyGrouped(wajib)) in plan.posts)
      && (ParseMoneyGrouped(pokok) > 0.0 <==> SavingPost(userId, "pokok", tanggal, ParseMoneyGrouped(pokok)) in plan.posts)
      && |plan.posts| == (if ParseMoneyGrouped(wajib) > 0.0 then 1 else 0) + (if ParseMoneyGrouped(pokok) > 0.0 then 1 else 0)
    ensures plan.Posts? && ParseMoneyGrouped(wajib) > 0.0 ==>
      plan.posts[0] == SavingPost(userId, "wajib", tanggal, ParseMoneyGrouped(wajib))
  {
    if userId == "" {
      return Refused(NoEmployee);
    }
    if tanggal == "" {
      return Refused(NoDate);
    }
    var amountWajib := ParseMoneyGrouped(wajib);
    var amountPokok := ParseMoneyGrouped(pokok);
    if amountWajib <= 0.0 && amountPokok <= 0.0 {
      return Refused(NoAmount);
    }
    var reqs := PlanPosts(userId, tanggal, amountWajib, amountPokok);
    return Posts(reqs);
  }

  /** The alert and the navigation once the requests settle: success goes back
      to "/admin"; the first failure shows the server's first field message
      (or its message) and stays on the form. */
  function SaveFeedback(failure: Option<HttpError>): (r: (string, Option<string>))
    ensures r.0 != ""
    ensures r.1.Some? <==> failure.None?
    ensures failure.None? ==> r == ("Simpanan berhasil disimpan.", Some("/admin"))
    ensures failure.Some? ==> r.0 == FirstErrorMessage(failure.value, "Gagal menyimpan.")
  {
    match failure
    case None => ("Simpanan berhasil disimpan.", Some("/admin"))
    case Some(e) => (FirstErrorMessage(e, "Gagal menyimpan."), None)
  }
}
