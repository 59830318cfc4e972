/** The slice of JavaScript semantics the client relies on: optional values
    (`null`/`undefined`), truthiness, `||` and `??`, the string methods the
    components call, and the shape of an API error as the components read it. */
module Js {

  /** A JSON value that may be `null` or `undefined` (None); the components only
      ever test the two with `??`, `?.` and `!= null`, which do not tell them apart. */
  datatype Option<T> = None | Some(value: T)

  /** What `Number(...)` yields, kept exact: a finite value, or NaN / ±Infinity. */
  datatype Num = Finite(value: real) | NonFinite

  /** JavaScript truthiness of an optional string: null, undefined and "" are falsy. */
  predicate Truthy(v: Option<string>) {
    v.Some? && v.value != ""
  }

  /** `a || b` where `a` is an optional string. */
  function OrElse(a: Option<string>, b: string): string {
    if Truthy(a) then a.value else b
  }

  /** `a ?? b`. */
  function Coalesce<T>(a: Option<T>, b: T): T {
    if a.Some? then a.value else b
  }

  /** `s.startsWith(prefix)`. */
  predicate StartsWith(s: string, prefix: string) {
    |prefix| <= |s| && s[..|prefix|] == prefix
  }

  /** `s.slice(0, n)`. */
  function Take(s: string, n: nat): (r: string)
    ensures |r| == if |s| < n then |s| else n
    ensures r == s[..|r|]
  {
    if |s| <= n then s else s[..n]
  }

  /** `parts.join(sep)`. */
  function Join(parts: seq<string>, sep: string): string {
    if |parts| == 0 then ""
    else if |parts| == 1 then parts[0]
    else parts[0] + sep + Join(parts[1..], sep)
  }

  /** The position of the first `c` in `s`. */
  function IndexOf(s: string, c: char): (i: nat)
    requires c in s
    ensures i < |s| && s[i] == c && c !in s[..i]
  {
    if s[0] == c then 0
    else
      var i := IndexOf(s[1..], c) + 1;
      assert s[..i] == [s[0]] + s[1..][..i - 1];
      i
  }

  /** `s.split(c)` for a one-character separator: the pieces between the
      separators, which joined with the separator give `s` back. */
  function Split(s: string, c: char): (r: seq<string>)
    ensures |r| >= 1
    ensures forall i :: 0 <= i < |r| ==> c !in r[i]
    ensures Join(r, [c]) == s
    decreases |s|
  {
    if c !in s then [s]
    else
      var i := IndexOf(s, c);
      var rest := Split(s[i + 1..], c);
      assert s == s[..i] + [c] + s[i + 1..];
      [s[..i]] + rest
  }

  /** Splitting `a + [c] + b` where neither side holds `c` gives back the two sides. */
  lemma SplitPair(a: string, c: char, b: string)
    requires c !in a && c !in b
    ensures Split(a + [c] + b, c) == [a, b]
  {
    var s := a + [c] + b;
    assert s[|a|] == c;
    assert s[..|a|] == a;
    assert s[|a| + 1..] == b;
  }

  predicate IsDigit(c: char) {
    '0' <= c <= '9'
  }

  predicate AllDigits(s: string) {
    forall i :: 0 <= i < |s| ==> IsDigit(s[i])
  }

  function DigitChar(d: nat): (c: char)
    requires d < 10
    ensures IsDigit(c) && DigitValue(c) == d
  {
    "0123456789"[d]
  }

  function DigitValue(c: char): nat
    requires IsDigit(c)
  {
    (c as int - '0' as int) as nat
  }

  /** The value of a string of decimal digits. */
  function DigitsValue(s: string): nat
    requires AllDigits(s)
  {
    if s == [] then 0 else DigitsValue(s[..|s| - 1]) * 10 + DigitValue(s[|s| - 1])
  }

  /** `String(n)` for a non-negative integer: its shortest decimal form. */
  function NatToString(n: nat): (s: string)
    ensures |s| > 0 && AllDigits(s)
    ensures DigitsValue(s) == n
    ensures n < 10 <==> |s| == 1
  {
    if n < 10 then [DigitChar(n)]
    else
      var s := NatToString(n / 10) + [DigitChar(n % 10)];
      assert s[..|s| - 1] == NatToString(n / 10);
      s
  }

  /** `String(i)` for an integer. */
  function IntToString(i: int): string {
    if i < 0 then "-" + NatToString(-i) else NatToString(i)
  }

  /** `String(n).padStart(2, "0")`. */
  function Pad2(n: nat): (s: string)
    ensures AllDigits(s) && DigitsValue(s) == n
    ensures n < 100 ==> |s| == 2
  {
    var d := NatToString(n);
    if |d| < 2 then
      var s := "0" + d;
      assert s[..|s| - 1] == "0";
      s
    else d
  }

  function Pow10(n: nat): (p: nat)
    ensures p >= 1
  {
    if n == 0 then 1 else 10 * Pow10(n - 1)
  }

  /** The characters a numeric text is cleaned down to before `Number(...)`. */
  predicate NumberChar(c: char) {
    IsDigit(c) || c == '.' || c == '-'
  }

  /** The value of a decimal literal with whole part `whole` and fraction
      digits `frac`. */
  function DecimalValue(whole: string, frac: string): (r: real)
    requires AllDigits(whole) && AllDigits(frac)
    ensures r >= DigitsValue(whole) as real
  {
    DigitsValue(whole) as real + DigitsValue(frac) as real / Pow10(|frac|) as real
  }

  /** An unsigned decimal literal: digits with an optional fraction, at least
      one digit in all (`12`, `12.`, `12.5`, `.5`). */
  function UnsignedDecimal(s: string): (r: Option<real>)
    ensures r.Some? ==> r.value >= 0.0
  {
    if '.' in s then
      var i := IndexOf(s, '.');
      var whole := s[..i];
      var frac := s[i + 1..];
      if AllDigits(whole) && AllDigits(frac) && (whole != [] || frac != []) then
        Some(DecimalValue(whole, frac))
      else None
    else if s != [] && AllDigits(s) then Some(DigitsValue(s) as real)
    else None
  }

  /** `Number(s)` for a text made only of digits, "." and "-": the empty text
      is 0, an optional leading "-" negates, anything else not a decimal
      literal is NaN. The value is kept exact (no rounding to a double). */
  function NumberOf(s: string): (r: Num)
    requires forall i :: 0 <= i < |s| ==> NumberChar(s[i])
  {
    if s == [] then Finite(0.0)
    else
      var body := if s[0] == '-' then s[1..] else s;
      match UnsignedDecimal(body)
      case Some(v) => Finite(if s[0] == '-' then -v else v)
      case None => NonFinite
  }

  lemma DigitsHaveNoSeparator(s: string)
    requires AllDigits(s)
    ensures '.' !in s && '-' !in s
  {
  }

  /** A nonempty run of digits reads as its decimal value (leading zeros allowed). */
  lemma NumberOfDigits(s: string)
    requires s != [] && AllDigits(s)
    ensures NumberOf(s) == Finite(DigitsValue(s) as real)
  {
    DigitsHaveNoSeparator(s);
  }

  /** `n` digits stand for a value below 10^n. */
  lemma {:induction false} DigitsValueBound(s: string)
    requires AllDigits(s)
    ensures DigitsValue(s) < Pow10(|s|)
  {
    if s != [] {
      DigitsValueBound(s[..|s| - 1]);
    }
  }

  /** A whole number written in decimal reads back as itself. */
  lemma NumberOfNat(n: nat)
    ensures NumberOf(NatToString(n)) == Finite(n as real)
  {
    NumberOfDigits(NatToString(n));
  }

  /** The digits of `a + b` read as `a` shifted left by `|b|` places, plus `b`. */
  lemma {:induction false} DigitsValueAppend(a: string, b: string)
    requires AllDigits(a) && AllDigits(b)
    ensures AllDigits(a + b)
    ensures DigitsValue(a + b) == DigitsValue(a) * Pow10(|b|) + DigitsValue(b)
  {
    if b == [] {
      assert a + b == a;
    } else {
      var front := b[..|b| - 1];
      var d := DigitValue(b[|b| - 1]);
      DigitsValueAppend(a, front);
      assert (a + b)[..|a + b| - 1] == a + front;
      assert DigitsValue(a + b) == DigitsValue(a + front) * 10 + d;
      assert DigitsValue(b) == DigitsValue(front) * 10 + d;
      assert Pow10(|b|) == 10 * Pow10(|front|);
      ShiftOneDigit(DigitsValue(a), Pow10(|front|), DigitsValue(front), d);
    }
  }

  /** Shifting `x * p + y` one decimal place and adding a digit. */
  lemma ShiftOneDigit(x: int, p: int, y: int, d: int)
    ensures (x * p + y) * 10 + d == x * (10 * p) + (y * 10 + d)
  {
  }

  /** Digits, a point and digits read as the whole part plus the fraction. */
  lemma NumberOfPointed(w: string, f: string)
    requires w != [] && AllDigits(w) && AllDigits(f)
    ensures forall i :: 0 <= i < |w + "." + f| ==> NumberChar((w + "." + f)[i])
    ensures NumberOf(w + "." + f) == Finite(DecimalValue(w, f))
  {
    var s := w + "." + f;
    PointedChars(w, f);
    DigitsHaveNoSeparator(w);
    assert s[..|w|] == w;
    assert s[|w| + 1..] == f;
    assert s[|w|] == '.';
    IndexOfFirst(s, '.', |w|);
    assert s[0] == w[0];
    var i := IndexOf(s, '.');
    assert s[..i] == w && s[i + 1..] == f;
    assert UnsignedDecimal(s) == Some(DecimalValue(w, f));
  }

  lemma PointedChars(w: string, f: string)
    requires AllDigits(w) && AllDigits(f)
    ensures forall i :: 0 <= i < |w + "." + f| ==> NumberChar((w + "." + f)[i])
  {
    var s := w + "." + f;
    forall i | 0 <= i < |s| ensures NumberChar(s[i]) {
      if i < |w| { assert s[i] == w[i]; } else if i > |w| { assert s[i] == f[i - |w| - 1]; }
    }
  }

  /** `s.lastIndexOf(c)`: -1 when `c` does not occur. */
  function LastIndexOf(s: string, c: char): (i: int)
    ensures -1 <= i < |s|
    ensures i == -1 <==> c !in s
    ensures i >= 0 ==> s[i] == c
    ensures forall j :: i < j < |s| ==> s[j] != c
  {
    if s == [] then -1
    else if s[|s| - 1] == c then |s| - 1
    else LastIndexOf(s[..|s| - 1], c)
  }

  /** `s.replace(/c/g, "")`: every `c` removed, the rest kept in order. */
  function DropAll(s: string, c: char): (r: string)
    ensures c !in r && |r| <= |s|
  {
    if s == [] then [] else (if s[0] == c then [] else [s[0]]) + DropAll(s[1..], c)
  }

  /** Dropping `c` keeps every other character and only those. */
  lemma {:induction false} DropAllMembers(s: string, c: char)
    ensures forall x :: x in DropAll(s, c) <==> x in s && x != c
  {
    if s != [] {
      DropAllMembers(s[1..], c);
      assert s == [s[0]] + s[1..];
    }
  }

  lemma {:induction false} DropAllAppend(a: string, b: string, c: char)
    ensures DropAll(a + b, c) == DropAll(a, c) + DropAll(b, c)
  {
    if a != [] {
      DropAllAppend(a[1..], b, c);
      assert (a + b)[1..] == a[1..] + b;
    } else {
      assert a + b == b;
    }
  }

  lemma {:induction false} DropAllAbsent(s: string, c: char)
    requires c !in s
    ensures DropAll(s, c) == s
  {
    if s != [] {
      DropAllAbsent(s[1..], c);
    }
  }

  /** `s.replace(c, d)` with a plain-string pattern: only the first `c` becomes `d`. */
  function ReplaceFirst(s: string, c: char, d: char): (r: string)
    ensures |r| == |s|
    ensures forall i :: 0 <= i < |s| && s[i] != c ==> r[i] == s[i]
    ensures c !in s ==> r == s
  {
    if c in s then
      var i := IndexOf(s, c);
      s[..i] + [d] + s[i + 1..]
    else s
  }

  /** `IndexOf` finds no position after one that holds `c`. */
  lemma {:induction false} IndexOfAtMost(s: string, c: char, i: nat)
    requires i < |s| && s[i] == c
    ensures IndexOf(s, c) <= i
  {
    if i > 0 && s[0] != c {
      IndexOfAtMost(s[1..], c, i - 1);
    }
  }

  /** A separator after the last one only adds a piece. */
  lemma {:induction false} SplitSnoc(a: string, c: char, b: string)
    requires c !in b
    ensures Split(a + [c] + b, c) == Split(a, c) + [b]
    decreases |a|
  {
    if c !in a {
      SplitPair(a, c, b);
    } else {
      var i := IndexOf(a, c);
      var head, tail := a[..i], a[i + 1..];
      assert a == head + [c] + tail;
      SplitSnoc(tail, c, b);
      SplitSnocStep(head, c, tail, b);
    }
  }

  /** One step of `SplitSnoc`: a first piece free of `c` is put in front. */
  lemma SplitSnocStep(head: string, c: char, tail: string, b: string)
    requires c !in head
    requires Split(tail + [c] + b, c) == Split(tail, c) + [b]
    ensures Split(head + [c] + tail + [c] + b, c) == Split(head + [c] + tail, c) + [b]
  {
    ConcatAssoc(head + [c], tail + [c], b);
    ConcatAssoc(head + [c], tail, [c]);
    SplitCons(head, c, tail + [c] + b);
    SplitCons(head, c, tail);
    ConcatAssoc([head], Split(tail, c), [b]);
  }

  lemma ConcatAssoc<T>(x: seq<T>, y: seq<T>, z: seq<T>)
    ensures x + (y + z) == x + y + z
  {
  }

  lemma DropHead<T>(x: T, a: seq<T>, b: seq<T>)
    ensures ([x] + a + b)[1..] == a + b
  {
  }

  lemma HeadTail<T>(s: seq<T>)
    requires s != []
    ensures [s[0]] + s[1..] == s
  {
  }

  lemma TakeSnoc<T>(s: seq<T>, i: int)
    requires 0 <= i < |s|
    ensures s[..i + 1] == s[..i] + [s[i]]
  {
  }

  /** A first piece free of `c` is split off whole. */
  lemma SplitCons(p: string, c: char, q: string)
    requires c !in p
    ensures Split(p + [c] + q, c) == [p] + Split(q, c)
  {
    var s := p + [c] + q;
    assert s[..|p|] == p && s[|p|] == c && s[|p| + 1..] == q;
    IndexOfFirst(s, c, |p|);
  }

  /** The first position holding `c` is the one `IndexOf` finds. */
  lemma {:induction false} IndexOfFirst(s: string, c: char, i: nat)
    requires i < |s| && s[i] == c && c !in s[..i]
    ensures IndexOf(s, c) == i
  {
    if i > 0 {
      assert s[0] == s[..i][0];
      assert s[1..][..i - 1] == s[..i][1..];
      IndexOfFirst(s[1..], c, i - 1);
    }
  }

  /** The characters `String.prototype.trim` removes (white space and line terminators). */
  predicate IsJsSpace(c: char) {
    c == '\t' || c == '\n' || c == '\U{000B}' || c == '\U{000C}' || c == '\r' || c == ' '
    || c == '\U{00A0}' || c == '\U{1680}' || ('\U{2000}' <= c <= '\U{200A}')
    || c == '\U{2028}' || c == '\U{2029}' || c == '\U{202F}' || c == '\U{205F}'
    || c == '\U{3000}' || c == '\U{FEFF}'
  }

  function TrimStart(s: string): (r: string)
    ensures |r| <= |s| && r == s[|s| - |r|..]
    ensures r == [] || !IsJsSpace(r[0])
    ensures forall i :: 0 <= i < |s| - |r| ==> IsJsSpace(s[i])
  {
    if s != [] && IsJsSpace(s[0]) then
      var r := TrimStart(s[1..]);
      assert forall i :: 1 <= i < |s| - |r| ==> s[i] == s[1..][i - 1];
      r
    else s
  }

  function TrimEnd(s: string): (r: string)
    ensures |r| <= |s| && r == s[..|r|]
    ensures r == [] || !IsJsSpace(r[|r| - 1])
    ensures forall i :: |r| <= i < |s| ==> IsJsSpace(s[i])
  {
    if s != [] && IsJsSpace(s[|s| - 1]) then
      var r := TrimEnd(s[..|s| - 1]);
      assert forall i :: |r| <= i < |s| - 1 ==> s[i] == s[..|s| - 1][i];
      r
    else s
  }

  /** `s.trim()`: the text between the white space at its two ends. */
  function Trim(s: string): (r: string)
    ensures r == [] || (!IsJsSpace(r[0]) && !IsJsSpace(r[|r| - 1]))
    ensures exists i, j ::
              && 0 <= i <= j <= |s| && r == s[i..j]
              && (forall k :: 0 <= k < i ==> IsJsSpace(s[k]))
              && (forall k :: j <= k < |s| ==> IsJsSpace(s[k]))
  {
    var t := TrimStart(s);
    var r := TrimEnd(t);
    assert r != [] ==> r[0] == t[0];
    SliceBetweenSpaces(s, t, r);
    r
  }

  /** A prefix `r` of a suffix `t` of `s`, with white space cut off on both
      sides, is a slice of `s` between white space. */
  lemma SliceBetweenSpaces(s: string, t: string, r: string)
    requires |t| <= |s| && t == s[|s| - |t|..]
    requires forall i :: 0 <= i < |s| - |t| ==> IsJsSpace(s[i])
    requires |r| <= |t| && r == t[..|r|]
    requires forall i :: |r| <= i < |t| ==> IsJsSpace(t[i])
    ensures exists i, j ::
              && 0 <= i <= j <= |s| && r == s[i..j]
              && (forall k :: 0 <= k < i ==> IsJsSpace(s[k]))
              && (forall k :: j <= k < |s| ==> IsJsSpace(s[k]))
  {
    var i := |s| - |t|;
    var j := i + |r|;
    assert r == s[i..j];
    forall k | j <= k < |s| ensures IsJsSpace(s[k]) {
      assert s[k] == t[k - i];
    }
  }

  /** `s.length`: the UTF-16 code units of the text, two for each character
      above U+FFFF. */
  function Utf16Length(s: string): (n: nat)
    ensures |s| <= n <= 2 * |s|
    ensures n == |s| <==> forall i :: 0 <= i < |s| ==> s[i] <= '\U{FFFF}'
  {
    if s == [] then 0
    else
      var n := (if s[0] <= '\U{FFFF}' then 1 else 2) + Utf16Length(s[1..]);
      assert forall i :: 1 <= i < |s| ==> s[i] == s[1..][i - 1];
      n
  }

  /** A text with no white space at either end is its own trim. */
  lemma TrimUnchanged(s: string)
    requires s == [] || (!IsJsSpace(s[0]) && !IsJsSpace(s[|s| - 1]))
    ensures Trim(s) == s
  {
  }

  /** `localStorage`: text values under text keys. */
  type Storage = map<string, string>

  /** The messages a server attaches to one field: an array, or a single value. */
  datatype FieldMessages = MessageList(list: seq<string>) | MessageText(text: string)

  /** `response.data.errors`: an array of messages or an object keyed by field,
      whose entries are listed in `Object.keys` order. */
  datatype ServerErrors =
    | ErrorArray(items: seq<string>)
    | ErrorObject(entries: seq<(string, FieldMessages)>)

  /** A rejected request as the components read it: `e.response.data.message`,
      `e.response.data.errors` and the exception's own `e.message`. */
  datatype HttpError = HttpError(message: Option<string>, errors: Option<ServerErrors>, exceptionMessage: Option<string>)

  /** How a request settled: the body it returned, or the rejection. */
  datatype Reply<T> = Replied(value: T) | Errored(error: HttpError)

  /** `e?.response?.data?.message || e?.message || fallback`. */
  function LoadErrorMessage(e: HttpError, fallback: string): (r: string)
    ensures fallback != "" ==> r != ""
  {
    OrElse(e.message, OrElse(e.exceptionMessage, fallback))
  }

  /** `e?.response?.data?.message || fallback`. */
  function ServerMessage(e: HttpError, fallback: string): (r: string)
    ensures fallback != "" ==> r != ""
  {
    OrElse(e.message, fallback)
  }

  /** `message || (Array.isArray(errors) ? errors.join(", ") : e.message) || fallback`. */
  function ActionErrorMessage(e: HttpError, fallback: string): (r: string)
    ensures fallback != "" ==> r != ""
  {
    if Truthy(e.message) then e.message.value
    else
      var middle :=
        if e.errors.Some? && e.errors.value.ErrorArray? then Some(Join(e.errors.value.items, ", "))
        else e.exceptionMessage;
      OrElse(middle, fallback)
  }

  /** `v?.[0]` on a field's messages: the first array element, or the first
      character of a plain string. */
  function FirstOf(m: FieldMessages): Option<string> {
    match m
    case MessageList(l) => if l == [] then None else Some(l[0])
    case MessageText(t) => if t == "" then None else Some([t[0]])
  }

  /** `errors ? (errors[Object.keys(errors)[0]]?.[0] || fallback) : (message || fallback)`. */
  function FirstErrorMessage(e: HttpError, fallback: string): (r: string)
    ensures fallback != "" ==> r != ""
  {
    match e.errors
    case None => OrElse(e.message, fallback)
    case Some(ErrorArray(items)) =>
      OrElse(if items == [] || items[0] == "" then None else Some([items[0][0]]), fallback)
    case Some(ErrorObject(entries)) =>
      OrElse(if entries == [] then None else FirstOf(entries[0].1), fallback)
  }
}
