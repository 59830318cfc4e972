/** The employee's loan application form: today's date as its default, the
    request body, and the message shown when the application fails. */
module LoanForm {
  import opened Js

  /** `${y}-${m}-${d}` with the month (`getMonth() + 1`) and the day padded to
      two digits. */
  function DefaultDate(year: nat, monthIndex: nat, day: nat): (date: string)
    requires monthIndex < 12 && 1 <= day <= 31
  {
    NatToString(year) + "-" + Pad2(monthIndex + 1) + "-" + Pad2(day)
  }

  /** Three dash-free pieces joined by dashes split back into those pieces. */
  lemma SplitThree(a: string, b: string, c: string)
    requires '-' !in a && '-' !in b && '-' !in c
    ensures Split(a + "-" + b + "-" + c, '-') == [a, b, c]
  {
    SplitPair(a, '-', b);
    SplitSnoc(a + "-" + b, '-', c);
    assert a + "-" + b + "-" + c == (a + "-" + b) + ['-'] + c;
  }

  /** The default date splits at its dashes into the year, the month and the
      day, each reading back as the number it was built from. */
  lemma DefaultDateRoundTrip(year: nat, monthIndex: nat, day: nat)
    requires monthIndex < 12 && 1 <= day <= 31
    ensures var parts := Split(DefaultDate(year, monthIndex, day), '-');
      && parts == [NatToString(year), Pad2(monthIndex + 1), Pad2(day)]
      && NumberOf(parts[0]) == Finite(year as real)
      && NumberOf(parts[1]) == Finite((monthIndex + 1) as real)
      && NumberOf(parts[2]) == Finite(day as real)
      && |parts[1]| == 2 && |parts[2]| == 2
  {
    var y, m, d := NatToString(year), Pad2(monthIndex + 1), Pad2(day);
    DigitsHaveNoSeparator(y);
    DigitsHaveNoSeparator(m);
    DigitsHaveNoSeparator(d);
    SplitThree(y, m, d);
    NumberOfDigits(y);
    NumberOfDigits(m);
    NumberOfDigits(d);
  }

  /** The default date is made of digits and dashes only. */
  lemma DefaultDateChars(year: nat, monthIndex: nat, day: nat)
    requires monthIndex < 12 && 1 <= day <= 31
    ensures forall i :: 0 <= i < |DefaultDate(year, monthIndex, day)| ==>
      IsDigit(DefaultDate(year, monthIndex, day)[i]) || DefaultDate(year, monthIndex, day)[i] == '-'
  {
    var y, m, d := NatToString(year), Pad2(monthIndex + 1), Pad2(day);
    var date := y + "-" + m + "-" + d;
    forall i | 0 <= i < |date| ensures IsDigit(date[i]) || date[i] == '-' {
      if i < |y| { assert date[i] == y[i]; }
      else if i == |y| { }
      else if i < |y| + 1 + |m| { assert date[i] == m[i - |y| - 1]; }
      else if i == |y| + 1 + |m| { }
      else { assert date[i] == d[i - |y| - 2 - |m|]; }
    }
  }

  /** The `POST /loans` body; `submittedAt` None is the `undefined` field
      JSON leaves out. */
  datatype LoanPayload = LoanPayload(amount: string, submittedAt: Option<string>, phone: string, address: string)

  /** The time of day every submitted date is stamped with. */
  const Midnight := "00:00:00"

  /** `submitted_at: submittedAt ? `${submittedAt} 00:00:00` : undefined`, the
      other fields as typed. */
  function Payload(amount: string, submittedAt: string, phone: string, address: string): (p: LoanPayload)
    ensures p.amount == amount && p.phone == phone && p.address == address
    ensures p.submittedAt.Some? <==> submittedAt != ""
    ensures p.submittedAt.Some? ==>
      && StartsWith(p.submittedAt.value, submittedAt)
      && p.submittedAt.value[|submittedAt|..] == " " + Midnight
  {
    var stamp := submittedAt + " " + Midnight;
    assert stamp[..|submittedAt|] == submittedAt;
    LoanPayload(amount, if submittedAt != "" then Some(stamp) else None, phone, address)
  }

  /** The timestamp sent for the default date splits at its space into that
      date and midnight, which is how the tables cut a timestamp to its date. */
  lemma DefaultStampSplits(year: nat, monthIndex: nat, day: nat)
    requires monthIndex < 12 && 1 <= day <= 31
    ensures var p := Payload("", DefaultDate(year, monthIndex, day), "", "");
      p.submittedAt.Some? && Split(p.submittedAt.value, ' ') == [DefaultDate(year, monthIndex, day), Midnight]
  {
    var date := DefaultDate(year, monthIndex, day);
    assert ' ' !in date by {
      DefaultDateChars(year, monthIndex, day);
      forall i | 0 <= i < |date| ensures date[i] != ' ' { }
    }
    StampSplits(date);
  }

  /** A date without spaces, stamped with midnight, splits back at the space. */
  lemma StampSplits(date: string)
    requires ' ' !in date
    ensures Split(date + " " + Midnight, ' ') == [date, Midnight]
  {
    SplitPair(date, ' ', Midnight);
  }

  /** After `POST /loans` settles: a success goes to "/karyawan"; a failure
      shows the server message, else the exception message, else a fixed text. */
  function SubmitOutcome(failure: Option<HttpError>): (r: (Option<string>, Option<string>))
    ensures failure.None? <==> r.1 == Some("/karyawan")
    ensures failure.None? ==> r.0 == None
    ensures failure.Some? ==> r.1 == None && r.0 == Some(LoadErrorMessage(failure.value, "Gagal mengajukan pinjaman"))
    ensures r.0.Some? ==> r.0.value != ""
  {
    match failure
    case None => (None, Some("/karyawan"))
    case Some(e) => (Some(LoadErrorMessage(e, "Gagal mengajukan pinjaman")), None)
  }
}
