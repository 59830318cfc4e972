/** CSV text as the export buttons write it: fields escaped after section 2 of
    RFC 4180 (rules 6 and 7), fields joined with ",", records joined with a
    single line feed. Two deviations from RFC 4180: records end with LF, not
    CRLF, and a carriage return does not make a field quoted. A reader for this
    format is given so that the escaping can be shown to lose nothing. */
module Csv {
  import opened Js

  /** The characters that force a field into quotes: `"`, `,` and LF (not CR). */
  predicate Special(c: char) {
    c == '"' || c == ',' || c == '\n'
  }

  predicate NeedsQuotes(s: string) {
    exists i :: 0 <= i < |s| && Special(s[i])
  }

  /** `s.replace(/"/g, '""')`. */
  function DoubleQuotes(s: string): (r: string)
    ensures |r| >= |s|
  {
    if s == [] then []
    else (if s[0] == '"' then "\"\"" else [s[0]]) + DoubleQuotes(s[1..])
  }

  /** `csvEscape` / `csvSafe` applied to a present value `s` (already `String(val)`). */
  function Field(s: string): (r: string)
    ensures r == s <==> !NeedsQuotes(s)
    ensures (|r| > 0 && r[0] == '"') <==> NeedsQuotes(s)
    ensures NeedsQuotes(s) ==> |r| >= |s| + 2 && r[|r| - 1] == '"'
  {
    if NeedsQuotes(s) then "\"" + DoubleQuotes(s) + "\""
    else
      assert s != [] ==> !Special(s[0]);
      s
  }

  /** `csvEscape(val)`: `null` and `undefined` become the empty field. */
  function Escape(v: Option<string>): (r: string)
    ensures v.None? ==> r == ""
    ensures v.Some? ==> r == Field(v.value)
  {
    match v
    case None => ""
    case Some(s) => Field(s)
  }

  function Fields(values: seq<string>): (r: seq<string>)
    ensures |r| == |values|
    ensures forall i :: 0 <= i < |values| ==> r[i] == Field(values[i])
  {
    if values == [] then [] else [Field(values[0])] + Fields(values[1..])
  }

  /** One record: its escaped fields joined with ",". */
  function Record(values: seq<string>): string {
    Join(Fields(values), ",")
  }

  function Records(rows: seq<seq<string>>): (r: seq<string>)
    ensures |r| == |rows|
    ensures forall i :: 0 <= i < |rows| ==> r[i] == Record(rows[i])
  {
    if rows == [] then [] else [Record(rows[0])] + Records(rows[1..])
  }

  /** A whole export: records joined with LF and no trailing line break. */
  function Document(rows: seq<seq<string>>): string {
    Join(Records(rows), "\n")
  }

  // ---- A reader for the format, used to state that escaping is lossless ----

  /** Reads the body of a quoted field (after its opening quote) up to the
      closing quote; a doubled quote stands for one quote. */
  function ReadQuoted(s: string): (r: (string, string))
    ensures |r.1| <= |s|
  {
    if s == [] then ([], [])
    else if s[0] == '"' then
      if |s| >= 2 && s[1] == '"' then
        var t := ReadQuoted(s[2..]);
        (['"'] + t.0, t.1)
      else ([], s[1..])
    else
      var t := ReadQuoted(s[1..]);
      ([s[0]] + t.0, t.1)
  }

  /** Reads an unquoted field up to the next "," or LF. */
  function ReadBare(s: string): (r: (string, string))
    ensures |r.1| <= |s|
  {
    if s == [] || s[0] == ',' || s[0] == '\n' then ([], s)
    else
      var t := ReadBare(s[1..]);
      ([s[0]] + t.0, t.1)
  }

  function ReadField(s: string): (r: (string, string))
    ensures |r.1| <= |s|
  {
    if s != [] && s[0] == '"' then ReadQuoted(s[1..]) else ReadBare(s)
  }

  /** Reads the fields of one record; the flag says whether it ended at a LF. */
  function ReadRecord(s: string): (r: (seq<string>, string, bool))
    ensures |r.1| <= |s|
    ensures r.2 ==> |r.1| < |s|
    decreases |s|
  {
    var (f, rest) := ReadField(s);
    if rest != [] && rest[0] == ',' then
      var (fs, rest2, more) := ReadRecord(rest[1..]);
      ([f] + fs, rest2, more)
    else if rest != [] && rest[0] == '\n' then ([f], rest[1..], true)
    else ([f], rest, false)
  }

  /** Reads every record of a text. */
  function ReadRecords(s: string): seq<seq<string>>
    decreases |s|
  {
    var (fs, rest, more) := ReadRecord(s);
    if more then [fs] + ReadRecords(rest) else [fs]
  }

  /** What may follow a field: the end of the text, a "," or a LF. */
  predicate FieldEnd(t: string) {
    t == [] || t[0] == ',' || t[0] == '\n'
  }

  lemma {:induction false} ReadQuotedDoubled(s: string, t: string)
    requires t == [] || t[0] != '"'
    ensures ReadQuoted(DoubleQuotes(s) + "\"" + t) == (s, t)
    decreases |s|
  {
    var w := DoubleQuotes(s) + "\"" + t;
    if s == [] {
      assert w == "\"" + t;
    } else {
      ReadQuotedDoubled(s[1..], t);
      var tail := DoubleQuotes(s[1..]) + "\"" + t;
      if s[0] == '"' {
        assert DoubleQuotes(s) == "\"\"" + DoubleQuotes(s[1..]);
        assert w == "\"\"" + tail;
        assert w[0] == '"' && w[1] == '"';
        assert w[2..] == tail;
        assert ['"'] + s[1..] == s;
      } else {
        assert DoubleQuotes(s) == [s[0]] + DoubleQuotes(s[1..]);
        assert w == [s[0]] + tail;
        assert w[0] == s[0];
        assert w[1..] == tail;
        assert [s[0]] + s[1..] == s;
      }
    }
  }

  lemma {:induction false} ReadBarePlain(s: string, t: string)
    requires !NeedsQuotes(s)
    requires FieldEnd(t)
    ensures ReadBare(s + t) == (s, t)
    decreases |s|
  {
    if s == [] {
      assert s + t == t;
    } else {
      assert !Special(s[0]);
      assert !NeedsQuotes(s[1..]) by {
        forall i | 0 <= i < |s[1..]| ensures !Special(s[1..][i]) {
          assert s[1..][i] == s[i + 1];
        }
      }
      ReadBarePlain(s[1..], t);
      assert (s + t)[0] == s[0];
      assert (s + t)[1..] == s[1..] + t;
      assert [s[0]] + s[1..] == s;
    }
  }

  /** An escaped field reads back as the original value, whatever follows it. */
  lemma {:induction false} ReadFieldRoundTrip(s: string, t: string)
    requires FieldEnd(t)
    ensures ReadField(Field(s) + t) == (s, t)
  {
    if NeedsQuotes(s) {
      ReadQuotedField(s, t);
    } else {
      ReadBareField(s, t);
    }
  }

  lemma ReadQuotedField(s: string, t: string)
    requires NeedsQuotes(s) && FieldEnd(t)
    ensures ReadField(Field(s) + t) == (s, t)
  {
    var body := DoubleQuotes(s) + "\"" + t;
    ConcatAssoc("\"", DoubleQuotes(s) + "\"", t);
    ConcatAssoc("\"", DoubleQuotes(s), "\"");
    DropHead('"', DoubleQuotes(s) + "\"", t);
    ReadQuotedDoubled(s, t);
  }

  lemma ReadBareField(s: string, t: string)
    requires !NeedsQuotes(s) && FieldEnd(t)
    ensures ReadField(Field(s) + t) == (s, t)
  {
    assert s != [] ==> !Special(s[0]);
    assert s != [] ==> (s + t)[0] == s[0];
    assert s == [] ==> s + t == t;
    ReadBarePlain(s, t);
  }

  /** An escaped record reads back as its values, and the reader stops at the
      LF that ends it, if any. */
  lemma {:induction false} ReadRecordRoundTrip(values: seq<string>, t: string)
    requires |values| >= 1
    requires t == [] || t[0] == '\n'
    ensures ReadRecord(Record(values) + t) == (values, if t == [] then [] else t[1..], t != [])
    decreases |values|
  {
    if |values| == 1 {
      ReadLastField(values, t);
    } else {
      ReadRecordRoundTrip(values[1..], t);
      ReadFirstField(values, t, if t == [] then [] else t[1..], t != []);
    }
  }

  /** The last field of a record ends it. */
  lemma ReadLastField(values: seq<string>, t: string)
    requires |values| == 1
    requires t == [] || t[0] == '\n'
    ensures ReadRecord(Record(values) + t) == (values, if t == [] then [] else t[1..], t != [])
  {
    assert Record(values) == Field(values[0]);
    ReadFieldRoundTrip(values[0], t);
    assert [values[0]] == values;
  }

  /** A field before a "," is read, and the record goes on after the ",". */
  lemma ReadFirstField(values: seq<string>, t: string, u: string, more: bool)
    requires |values| >= 2
    requires ReadRecord(Record(values[1..]) + t) == (values[1..], u, more)
    ensures ReadRecord(Record(values) + t) == (values, u, more)
  {
    var f, r := Field(values[0]), Record(values[1..]);
    var after := "," + r + t;
    RecordCons(values);
    ConcatAssoc(f, "," + r, t);
    ConcatAssoc(f, ",", r);
    ReadFieldRoundTrip(values[0], after);
    ReadRecordAfterComma(f + after, values[0], after);
    DropHead(',', r, t);
    HeadTail(values);
  }

  /** A record of two or more values is its first field, a "," and the rest. */
  lemma RecordCons(values: seq<string>)
    requires |values| >= 2
    ensures Record(values) == Field(values[0]) + "," + Record(values[1..])
  {
    assert Fields(values)[1..] == Fields(values[1..]);
  }

  /** A field followed by a "," starts a record that goes on after the ",". */
  lemma ReadRecordAfterComma(s: string, v: string, u: string)
    requires ReadField(s) == (v, u) && u != [] && u[0] == ','
    ensures var r := ReadRecord(u[1..]); ReadRecord(s) == ([v] + r.0, r.1, r.2)
  {
  }

  /** A document reads back as exactly its records, in order. */
  lemma {:induction false} ReadDocumentRoundTrip(rows: seq<seq<string>>)
    requires |rows| >= 1
    requires forall i :: 0 <= i < |rows| ==> |rows[i]| >= 1
    ensures ReadRecords(Document(rows)) == rows
    decreases |rows|
  {
    if |rows| == 1 {
      assert Document(rows) == Record(rows[0]);
      ReadRecordRoundTrip(rows[0], []);
      assert Record(rows[0]) + [] == Record(rows[0]);
    } else {
      var rest := rows[1..];
      assert Records(rows)[1..] == Records(rest);
      assert Document(rows) == Record(rows[0]) + ("\n" + Document(rest));
      ReadRecordRoundTrip(rows[0], "\n" + Document(rest));
      assert ("\n" + Document(rest))[1..] == Document(rest);
      ReadDocumentRoundTrip(rest);
    }
  }

  /** A header row of plain names is emitted verbatim, so joining it unescaped
      (as the exports do) gives the same text as escaping it. */
  lemma {:induction false} PlainHeaderRecord(names: seq<string>)
    requires forall i :: 0 <= i < |names| ==> !NeedsQuotes(names[i])
    ensures Record(names) == Join(names, ",")
  {
    assert Fields(names) == names;
  }

  /** An export as the savings tables write it: the header names joined with
      "," unescaped, then one escaped record per row, all joined with LF. */
  function WithHeader(header: seq<string>, rows: seq<seq<string>>): string {
    Join([Join(header, ",")] + Records(rows), "\n")
  }

  /** Such an export reads back as the header followed by the rows, in order,
      provided the header names need no quotes. */
  lemma WithHeaderRoundTrip(header: seq<string>, rows: seq<seq<string>>)
    requires |header| >= 1 && forall i :: 0 <= i < |header| ==> !NeedsQuotes(header[i])
    requires forall i :: 0 <= i < |rows| ==> |rows[i]| >= 1
    ensures ReadRecords(WithHeader(header, rows)) == [header] + rows
  {
    PlainHeaderRecord(header);
    var all := [header] + rows;
    assert Records(all) == [Join(header, ",")] + Records(rows) by {
      forall i | 0 <= i < |all| ensures Records(all)[i] == ([Join(header, ",")] + Records(rows))[i] {
        if i > 0 {
          assert all[i] == rows[i - 1];
        }
      }
    }
    ReadDocumentRoundTrip(all);
  }
}
