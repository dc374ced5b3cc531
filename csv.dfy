/**
 * The CSV export of the dashboard (public/js/dashboard.js): escaping of one
 * value, the rendering of the attempts as a CSV document, and a reader for
 * such documents against which the export is proved to round-trip.
 */
module Csv {
  import opened Common
  import opened JsNumber

  predicate IsSpecial(c: char)
  {
    c == ',' || c == '"' || c == '\n'
  }

  /** `includes(',') || includes('"') || includes('\n')`: such a value is quoted. */
  predicate NeedsQuoting(s: string)
  {
    exists i :: 0 <= i < |s| && IsSpecial(s[i])
  }

  /** `s.replace(/"/g, '""')`. */
  function DoubleQuotes(s: string): (r: string)
    ensures |r| >= |s|
  {
    if s == [] then [] else QuoteChar(s[0]) + DoubleQuotes(s[1..])
  }

  /** One character as it is written inside quotes: a quote is doubled. */
  function QuoteChar(c: char): (r: string)
    ensures |r| >= 1
  {
    if c == '"' then "\"\"" else [c]
  }

  /**
   * `escapeCSV(value)`: null and undefined become the empty field; a value
   * that needs quoting is wrapped in double quotes with its quotes doubled;
   * any other value is written as it is.
   */
  function EscapeCsv(v: Option<string>): (r: string)
    ensures v.None? ==> r == ""
    ensures v.Some? && !NeedsQuoting(v.value) ==> r == v.value
    ensures v.Some? && NeedsQuoting(v.value) ==> |r| >= |v.value| + 2 && r[0] == '"' && r[|r| - 1] == '"'
  {
    if v.None? then ""
    else if NeedsQuoting(v.value) then "\"" + DoubleQuotes(v.value) + "\""
    else v.value
  }

  function EscapeField(s: string): string
  {
    EscapeCsv(Some(s))
  }

  // ---- Reading CSV -----------------------------------------------------

  /** What ends a field: a comma, a line feed, or the end of the text. */
  datatype Delim = Comma | Newline | End

  /** One field read from the front of a text, its delimiter, and the text after the delimiter. */
  datatype Scanned = Scanned(field: string, delim: Delim, rest: string)

  /** Reads an unquoted field: everything up to the first comma or line feed. */
  function ScanPlain(t: string): (r: Scanned)
    ensures r.delim != End ==> |r.rest| < |t|
  {
    if t == [] then Scanned([], End, [])
    else if t[0] == ',' then Scanned([], Comma, t[1..])
    else if t[0] == '\n' then Scanned([], Newline, t[1..])
    else
      var r := ScanPlain(t[1..]);
      Scanned([t[0]] + r.field, r.delim, r.rest)
  }

  /** Reads a quoted field after its opening quote: `""` stands for one quote, a lone quote closes it. */
  function ScanQuoted(t: string): (r: Scanned)
    ensures r.delim != End ==> |r.rest| < |t|
  {
    if t == [] then Scanned([], End, [])
    else if t[0] == '"' then
      if |t| > 1 && t[1] == '"' then
        var r := ScanQuoted(t[2..]);
        Scanned(['"'] + r.field, r.delim, r.rest)
      else ScanPlain(t[1..])
    else
      var r := ScanQuoted(t[1..]);
      Scanned([t[0]] + r.field, r.delim, r.rest)
  }

  function ScanField(t: string): (r: Scanned)
    ensures r.delim != End ==> |r.rest| < |t|
  {
    if t != [] && t[0] == '"' then ScanQuoted(t[1..]) else ScanPlain(t)
  }

  /** The records of a CSV text, the first one starting with the fields in `current`. */
  function DecodeRecords(t: string, current: seq<string>): seq<seq<string>>
    decreases |t|
  {
    var s := ScanField(t);
    match s.delim
    case End => [current + [s.field]]
    case Comma => DecodeRecords(s.rest, current + [s.field])
    case Newline => [current + [s.field]] + DecodeRecords(s.rest, [])
  }

  function Decode(t: string): seq<seq<string>>
  {
    DecodeRecords(t, [])
  }

  // ---- Writing CSV -------------------------------------------------------

  /** A record: its fields escaped and joined with commas. */
  function EncodeRecord(fs: seq<string>): string
    requires fs != []
  {
    EscapeField(fs[0]) + (if |fs| == 1 then "" else "," + EncodeRecord(fs[1..]))
  }

  /** Records joined with line feeds. */
  function EncodeRecords(rs: seq<seq<string>>): string
    requires forall i :: 0 <= i < |rs| ==> rs[i] != []
  {
    if rs == [] then ""
    else EncodeRecord(rs[0]) + (if |rs| == 1 then "" else "\n" + EncodeRecords(rs[1..]))
  }

  /** What follows a field: its delimiter and the remaining text. */
  function Tail(d: Delim, rest: string): string
  {
    match d
    case End => ""
    case Comma => "," + rest
    case Newline => "\n" + rest
  }

  lemma {:induction false} ScanPlainField(s: string, d: Delim, rest: string)
    requires !NeedsQuoting(s) && (d == End ==> rest == [])
    ensures ScanPlain(s + Tail(d, rest)) == Scanned(s, d, rest)
  {
    if s == [] {
      assert s + Tail(d, rest) == Tail(d, rest);
      ScanDelimiter(d, rest);
    } else {
      PlainTail(s);
      ScanPlainField(s[1..], d, rest);
      PlainStep(s[0], s[1..] + Tail(d, rest));
      Regroup([s[0]], s[1..], Tail(d, rest));
      assert [s[0]] + s[1..] == s;
    }
  }

  /** Reading an ordinary character outside quotes gives that character and goes on after it. */
  lemma PlainStep(c: char, u: string)
    requires !IsSpecial(c)
    ensures ScanPlain([c] + u) == Scanned([c] + ScanPlain(u).field, ScanPlain(u).delim, ScanPlain(u).rest)
  {
    assert ([c] + u)[0] == c && ([c] + u)[1..] == u;
  }

  /** A delimiter read where a field could start ends an empty field. */
  lemma ScanDelimiter(d: Delim, rest: string)
    requires d == End ==> rest == []
    ensures ScanPlain(Tail(d, rest)) == Scanned([], d, rest)
  {
    match d
    case End =>
    case Comma => assert Tail(d, rest)[1..] == rest;
    case Newline => assert Tail(d, rest)[1..] == rest;
  }

  /** A text without special characters starts with an ordinary one and goes on without any. */
  lemma PlainTail(s: string)
    requires !NeedsQuoting(s) && s != []
    ensures !IsSpecial(s[0]) && !NeedsQuoting(s[1..])
  {
    assert forall i :: 0 <= i < |s[1..]| ==> s[1..][i] == s[i + 1];
  }

  lemma {:induction false} ScanQuotedField(s: string, d: Delim, rest: string)
    requires d == End ==> rest == []
    ensures ScanQuoted(DoubleQuotes(s) + "\"" + Tail(d, rest)) == Scanned(s, d, rest)
  {
    if s == [] {
      ClosingQuote(d, rest);
    } else {
      var u := DoubleQuotes(s[1..]) + "\"" + Tail(d, rest);
      ScanQuotedField(s[1..], d, rest);
      QuotedStep(s[0], u);
      QuotedSplit(s, Tail(d, rest));
      assert [s[0]] + s[1..] == s;
    }
  }

  /** The closing quote ends the field, and the delimiter after it is read. */
  lemma ClosingQuote(d: Delim, rest: string)
    requires d == End ==> rest == []
    ensures ScanQuoted(DoubleQuotes([]) + "\"" + Tail(d, rest)) == Scanned([], d, rest)
  {
    var t := DoubleQuotes([]) + "\"" + Tail(d, rest);
    assert t[0] == '"' && t[1..] == Tail(d, rest);
    ScanPlainField([], d, rest);
  }

  /** A quoted field's text starts with its first character, escaped. */
  lemma QuotedSplit(s: string, after: string)
    requires s != []
    ensures DoubleQuotes(s) + "\"" + after == QuoteChar(s[0]) + (DoubleQuotes(s[1..]) + "\"" + after)
  {
    var q, more := QuoteChar(s[0]), DoubleQuotes(s[1..]);
    assert DoubleQuotes(s) == q + more;
    Regroup(q, more, "\"");
    Regroup(q, more + "\"", after);
  }

  lemma Regroup(a: string, b: string, c: string)
    ensures (a + b) + c == a + (b + c)
  {
  }

  /** Reading one escaped character inside quotes gives that character and goes on after it. */
  lemma QuotedStep(c: char, u: string)
    ensures ScanQuoted(QuoteChar(c) + u)
         == Scanned([c] + ScanQuoted(u).field, ScanQuoted(u).delim, ScanQuoted(u).rest)
  {
    var t := QuoteChar(c) + u;
    if c == '"' {
      assert t[0] == '"' && t[1] == '"' && t[2..] == u;
    } else {
      assert t[0] == c && t[1..] == u;
    }
  }

  /** Reading an escaped field gives back the value, whatever follows its delimiter. */
  lemma ScanEscaped(s: string, d: Delim, rest: string)
    requires d == End ==> rest == []
    ensures ScanField(EscapeField(s) + Tail(d, rest)) == Scanned(s, d, rest)
  {
    if NeedsQuoting(s) {
      ScanQuotedEscape(s, d, rest);
    } else {
      ScanPlainEscape(s, d, rest);
    }
  }

  lemma ScanQuotedEscape(s: string, d: Delim, rest: string)
    requires NeedsQuoting(s) && (d == End ==> rest == [])
    ensures ScanField(EscapeField(s) + Tail(d, rest)) == Scanned(s, d, rest)
  {
    var q, after := DoubleQuotes(s), Tail(d, rest);
    assert EscapeField(s) == "\"" + q + "\"";
    Regroup("\"", q, "\"");
    Regroup("\"", q + "\"", after);
    var t := EscapeField(s) + after;
    assert t == "\"" + (q + "\"" + after);
    assert t[0] == '"' && t[1..] == q + "\"" + after;
    ScanQuotedField(s, d, rest);
  }

  lemma ScanPlainEscape(s: string, d: Delim, rest: string)
    requires !NeedsQuoting(s) && (d == End ==> rest == [])
    ensures ScanField(EscapeField(s) + Tail(d, rest)) == Scanned(s, d, rest)
  {
    assert EscapeField(s) == s;
    assert s == [] || s[0] != '"';
    ScanPlainField(s, d, rest);
  }

  /** Reading back one written record, the record before it already read into `current`. */
  lemma {:induction false} DecodeRecord(fs: seq<string>, current: seq<string>, d: Delim, rest: string)
    requires fs != [] && d != Comma && (d == End ==> rest == [])
    ensures DecodeRecords(EncodeRecord(fs) + Tail(d, rest), current)
            == [current + fs] + (if d == End then [] else DecodeRecords(rest, []))
  {
    if |fs| == 1 {
      DecodeLastField(fs[0], current, d, rest);
      assert [fs[0]] == fs;
    } else {
      DecodeNextField(fs, current, d, rest);
      DecodeRecord(fs[1..], current + [fs[0]], d, rest);
      assert current + [fs[0]] + fs[1..] == current + fs;
    }
  }

  /** The last field of a record closes it. */
  lemma DecodeLastField(f: string, current: seq<string>, d: Delim, rest: string)
    requires d != Comma && (d == End ==> rest == [])
    ensures DecodeRecords(EncodeRecord([f]) + Tail(d, rest), current)
            == [current + [f]] + (if d == End then [] else DecodeRecords(rest, []))
  {
    assert EncodeRecord([f]) == EscapeField(f);
    ScanEscaped(f, d, rest);
  }

  /** A field followed by a comma is added to the record being read. */
  lemma DecodeNextField(fs: seq<string>, current: seq<string>, d: Delim, rest: string)
    requires |fs| > 1
    ensures DecodeRecords(EncodeRecord(fs) + Tail(d, rest), current)
         == DecodeRecords(EncodeRecord(fs[1..]) + Tail(d, rest), current + [fs[0]])
  {
    var after := EncodeRecord(fs[1..]) + Tail(d, rest);
    assert EncodeRecord(fs) + Tail(d, rest) == EscapeField(fs[0]) + Tail(Comma, after);
    ScanEscaped(fs[0], Comma, after);
  }

  /** Reading back what was written gives the records written. */
  lemma {:induction false} DecodeEncode(rs: seq<seq<string>>)
    requires rs != [] && forall i :: 0 <= i < |rs| ==> rs[i] != []
    ensures Decode(EncodeRecords(rs)) == rs
  {
    if |rs| == 1 {
      assert EncodeRecords(rs) == EncodeRecord(rs[0]) + Tail(End, []);
      DecodeRecord(rs[0], [], End, []);
      var none: seq<string> := [];
      assert none + rs[0] == rs[0];
    } else {
      assert EncodeRecords(rs) == EncodeRecord(rs[0]) + Tail(Newline, EncodeRecords(rs[1..]));
      DecodeRecord(rs[0], [], Newline, EncodeRecords(rs[1..]));
      DecodeEncode(rs[1..]);
      var none: seq<string> := [];
      assert none + rs[0] == rs[0];
      assert [rs[0]] + rs[1..] == rs;
    }
  }

  // ---- The export ----------------------------------------------------------

  /** One attempt as the export reads it; the timestamp is already in ISO 8601 form. */
  datatype ExportRow = ExportRow(
    timestamp: string,
    ipAddress: Option<string>,
    username: Option<string>,
    password: Option<string>,
    passwordLength: Option<int>)

  const NoData: string := "No data available"
  const HeaderFields: seq<string> := ["Timestamp", "IP Address", "Username", "Password", "Password Length"]
  /** The header line, without its line feed. */
  const Header: string := "Timestamp" + "," + "IP Address" + "," + "Username" + "," + "Password" + "," + "Password Length"

  /** `${length}`: the decimal number, or `null`. */
  function LengthText(l: Option<int>): string
  {
    if l.None? then "null" else IntToDecimal(l.value)
  }

  function CsvLine(r: ExportRow): string
  {
    r.timestamp + "," + EscapeCsv(r.ipAddress) + "," + EscapeCsv(r.username) + ","
    + EscapeCsv(r.password) + "," + LengthText(r.passwordLength)
  }

  /** `lines.join('\n')`. */
  function JoinLines(lines: seq<string>): string
  {
    if lines == [] then ""
    else lines[0] + (if |lines| == 1 then "" else "\n" + JoinLines(lines[1..]))
  }

  function CsvLines(rows: seq<ExportRow>): (lines: seq<string>)
    ensures |lines| == |rows| && forall i :: 0 <= i < |rows| ==> lines[i] == CsvLine(rows[i])
  {
    seq(|rows|, i requires 0 <= i < |rows| => CsvLine(rows[i]))
  }

  /** `convertToCSV(attempts)`. */
  function ConvertToCsv(rows: seq<ExportRow>): (csv: string)
    ensures rows == [] <==> csv == NoData
  {
    if rows == [] then NoData else Header + "\n" + JoinLines(CsvLines(rows))
  }

  /** The value a reader sees in a field: null and undefined read as the empty field. */
  function Text(v: Option<string>): string
  {
    if v.None? then "" else v.value
  }

  function Fields(r: ExportRow): seq<string>
  {
    [r.timestamp, Text(r.ipAddress), Text(r.username), Text(r.password), LengthText(r.passwordLength)]
  }

  function FieldsOf(rows: seq<ExportRow>): (rs: seq<seq<string>>)
    ensures |rs| == |rows| && forall i :: 0 <= i < |rows| ==> rs[i] == Fields(rows[i])
  {
    seq(|rows|, i requires 0 <= i < |rows| => Fields(rows[i]))
  }

  lemma LengthTextPlain(l: Option<int>)
    ensures !NeedsQuoting(LengthText(l))
  {
    if l.Some? {
      var s := IntToDecimal(l.value);
      var digits := NatToDecimal(if l.value < 0 then -l.value else l.value);
      assert forall i :: 0 <= i < |digits| ==> IsDigitIn(digits[i], 10);
      assert s == digits || s == "-" + digits;
    }
  }

  lemma PlainField(s: string)
    requires forall i :: 0 <= i < |s| ==> !IsSpecial(s[i])
    ensures EscapeField(s) == s
  {
  }

  lemma EncodeCons(x: string, fs: seq<string>)
    requires fs != []
    ensures EncodeRecord([x] + fs) == EscapeField(x) + "," + EncodeRecord(fs)
  {
    assert ([x] + fs)[1..] == fs;
  }

  /** Regrouping `x,` followed by `y,z` as `x,y` followed by `,z`. */
  lemma CommaShift(x: string, y: string, z: string)
    ensures (x + ",") + (y + "," + z) == (x + "," + y) + "," + z
  {
    assert (x + ",") + ((y + ",") + z) == ((x + ",") + (y + ",")) + z;
    assert (x + ",") + (y + ",") == ((x + ",") + y) + ",";
  }

  lemma {:induction false} EncodeFive(a: string, b: string, c: string, d: string, e: string)
    ensures EncodeRecord([a, b, c, d, e])
         == EscapeField(a) + "," + EscapeField(b) + "," + EscapeField(c) + "," + EscapeField(d) + "," + EscapeField(e)
  {
    var ea, eb, ec, ed, ee := EscapeField(a), EscapeField(b), EscapeField(c), EscapeField(d), EscapeField(e);
    assert EncodeRecord([e]) == ee;
    assert [d, e] == [d] + [e];
    EncodeCons(d, [e]);
    assert [c, d, e] == [c] + [d, e];
    EncodeCons(c, [d, e]);
    CommaShift(ec, ed, ee);
    assert [b, c, d, e] == [b] + [c, d, e];
    EncodeCons(b, [c, d, e]);
    CommaShift(eb, ec + "," + ed, ee);
    CommaShift(eb, ec, ed);
    assert [a, b, c, d, e] == [a] + [b, c, d, e];
    EncodeCons(a, [b, c, d, e]);
    CommaShift(ea, eb + "," + ec + "," + ed, ee);
    CommaShift(ea, eb + "," + ec, ed);
    CommaShift(ea, eb, ec);
  }

  lemma CsvLineRecord(r: ExportRow)
    requires !NeedsQuoting(r.timestamp)
    ensures CsvLine(r) == EncodeRecord(Fields(r))
  {
    LengthTextPlain(r.passwordLength);
    EncodeFive(r.timestamp, Text(r.ipAddress), Text(r.username), Text(r.password), LengthText(r.passwordLength));
    assert EscapeCsv(r.ipAddress) == EscapeField(Text(r.ipAddress));
    assert EscapeCsv(r.username) == EscapeField(Text(r.username));
    assert EscapeCsv(r.password) == EscapeField(Text(r.password));
  }

  lemma {:induction false} LinesRecords(rows: seq<ExportRow>)
    requires forall i :: 0 <= i < |rows| ==> !NeedsQuoting(rows[i].timestamp)
    ensures JoinLines(CsvLines(rows)) == EncodeRecords(FieldsOf(rows))
  {
    if rows != [] {
      CsvLineRecord(rows[0]);
      assert CsvLines(rows)[1..] == CsvLines(rows[1..]);
      assert FieldsOf(rows)[1..] == FieldsOf(rows[1..]);
      LinesRecords(rows[1..]);
    }
  }

  lemma HeaderRecord()
    ensures EncodeRecord(HeaderFields) == Header
  {
    PlainRecordFive("Timestamp", "IP Address", "Username", "Password", "Password Length");
  }

  /** Five fields without special characters are written as they are, joined by commas. */
  lemma PlainRecordFive(a: string, b: string, c: string, d: string, e: string)
    requires !NeedsQuoting(a) && !NeedsQuoting(b) && !NeedsQuoting(c) && !NeedsQuoting(d) && !NeedsQuoting(e)
    ensures EncodeRecord([a, b, c, d, e]) == a + "," + b + "," + c + "," + d + "," + e
  {
    EncodeFive(a, b, c, d, e);
  }

  /** The export is the header record followed by one record per attempt. */
  lemma ConvertIsEncoding(rows: seq<ExportRow>)
    requires rows != []
    requires forall i :: 0 <= i < |rows| ==> !NeedsQuoting(rows[i].timestamp)
    ensures ConvertToCsv(rows) == EncodeRecords([HeaderFields] + FieldsOf(rows))
  {
    LinesRecords(rows);
    HeaderRecord();
    EncodeFirst(HeaderFields, FieldsOf(rows));
  }

  /** Records after a first one follow it on the next line. */
  lemma EncodeFirst(first: seq<string>, more: seq<seq<string>>)
    requires first != [] && more != [] && forall i :: 0 <= i < |more| ==> more[i] != []
    ensures EncodeRecords([first] + more) == EncodeRecord(first) + "\n" + EncodeRecords(more)
  {
    var all := [first] + more;
    assert all[0] == first && all[1..] == more;
  }

  /**
   * The export round-trips: reading the CSV of a non-empty list of
   * attempts (with comma-, quote- and newline-free ISO timestamps) gives
   * the header and then, per attempt and in order, its timestamp, IP,
   * username, password and length, whatever commas, quotes and line feeds
   * the captured values contain; null values read back as empty fields.
   */
  lemma CsvRoundTrip(rows: seq<ExportRow>)
    requires rows != []
    requires forall i :: 0 <= i < |rows| ==> !NeedsQuoting(rows[i].timestamp)
    ensures Decode(ConvertToCsv(rows)) == [HeaderFields] + FieldsOf(rows)
  {
    ConvertIsEncoding(rows);
    var all := [HeaderFields] + FieldsOf(rows);
    forall i | 0 <= i < |all| ensures all[i] != [] {
      if i > 0 {
        assert all[i] == Fields(rows[i - 1]);
      }
    }
    DecodeEncode(all);
  }
}
