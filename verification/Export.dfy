/** The content strings of `src/lib/services/ExportService.ts`: the CSV file
    and the SpreadsheetML ("Excel") file built from the combined
    publisher/report rows, with the two field escapes they use. How a number
    prints (`${n}` on a JavaScript number) is the parameter `fmt`; handing
    the content to the browser is not modelled. */
module Export {
  import opened Wrappers
  import opened Strings
  import opened Types

  // ---------------------------------------------------------------------
  // CSV field quoting

  /** The characters that make `escapeCSV` quote a value. */
  predicate NeedsQuoting(v: string) {
    ',' in v || '"' in v || '\n' in v
  }

  /** `value.replace(/"/g, '""')`. */
  function DoubleQuotes(v: string): string {
    ReplaceChar(v, '"', "\"\"")
  }

  /** `escapeCSV`: a value holding a comma, a double quote or a line feed is
      enclosed in double quotes with each inner quote doubled (rules 6 and 7
      of section 2 of RFC 4180); any other value is left alone. */
  function EscapeCSV(v: string): (r: string)
    ensures r == v <==> !NeedsQuoting(v)
    ensures NeedsQuoting(v) ==> |r| >= |v| + 2 && r[0] == '"' && r[|r| - 1] == '"'
  {
    if NeedsQuoting(v) then
      DoubleQuotesLength(v);
      "\"" + DoubleQuotes(v) + "\""
    else v
  }

  lemma {:induction false} DoubleQuotesLength(v: string)
    ensures |DoubleQuotes(v)| >= |v|
    decreases |v|
  {
    if |v| > 0 {
      DoubleQuotesLength(v[1..]);
    }
  }

  /** Each `""` read back as one `"`. */
  function Undouble(s: string): string
    decreases |s|
  {
    if |s| == 0 then ""
    else if |s| >= 2 && s[0] == '"' && s[1] == '"' then "\"" + Undouble(s[2..])
    else [s[0]] + Undouble(s[1..])
  }

  /** Reading a field back: strip the enclosing quotes and undouble the inner
      ones; an unquoted field is taken as it is. */
  function UnescapeCSV(s: string): string {
    if |s| >= 2 && s[0] == '"' && s[|s| - 1] == '"' then Undouble(s[1..|s| - 1]) else s
  }

  lemma {:induction false} UndoubleDoubleQuotes(v: string)
    ensures Undouble(DoubleQuotes(v)) == v
    decreases |v|
  {
    if |v| > 0 {
      var d := DoubleQuotes(v[1..]);
      UndoubleDoubleQuotes(v[1..]);
      if v[0] == '"' {
        assert DoubleQuotes(v) == "\"\"" + d;
        assert DoubleQuotes(v)[2..] == d;
      } else {
        assert DoubleQuotes(v) == [v[0]] + d;
        assert DoubleQuotes(v)[1..] == d;
      }
      assert [v[0]] + v[1..] == v;
    }
  }

  /** Reading back an escaped value gives the value. */
  lemma EscapeCSVRoundTrip(v: string)
    ensures UnescapeCSV(EscapeCSV(v)) == v
  {
    if NeedsQuoting(v) {
      var s := EscapeCSV(v);
      assert s[1..|s| - 1] == DoubleQuotes(v);
      UndoubleDoubleQuotes(v);
    } else if |v| >= 2 {
      assert v[0] != '"';
    }
  }

  // ---------------------------------------------------------------------
  // reading CSV back

  /** A field cut off the front of a string, and what follows it. */
  datatype Cut = Cut(field: string, rest: string)

  /** An unquoted field runs up to the next comma or line feed. */
  function Unquoted(s: string): (c: Cut)
    ensures |c.rest| <= |s|
    decreases |s|
  {
    if |s| == 0 || s[0] == ',' || s[0] == '\n' then Cut("", s)
    else
      var c := Unquoted(s[1..]);
      Cut([s[0]] + c.field, c.rest)
  }

  /** The body of a quoted field, after its opening quote: up to the first
      quote that is not doubled. */
  function Quoted(s: string): (c: Cut)
    ensures |c.rest| <= |s|
    decreases |s|
  {
    if |s| == 0 then Cut("", "")
    else if s[0] == '"' then
      if |s| >= 2 && s[1] == '"' then
        var c := Quoted(s[2..]);
        Cut("\"" + c.field, c.rest)
      else Cut("", s[1..])
    else
      var c := Quoted(s[1..]);
      Cut([s[0]] + c.field, c.rest)
  }

  function Field(s: string): (c: Cut)
    ensures |c.rest| <= |s|
  {
    if |s| > 0 && s[0] == '"' then Quoted(s[1..]) else Unquoted(s)
  }

  datatype RecordCut = RecordCut(fields: seq<string>, rest: string)

  /** One record: fields separated by commas, up to a line feed outside
      quotes or the end. */
  function Record(s: string): (r: RecordCut)
    ensures |r.rest| <= |s| && |r.fields| >= 1
    decreases |s|
  {
    var c := Field(s);
    if |c.rest| > 0 && c.rest[0] == ',' then
      var r := Record(c.rest[1..]);
      RecordCut([c.field] + r.fields, r.rest)
    else RecordCut([c.field], c.rest)
  }

  /** A whole CSV text as its records. */
  function Records(s: string): (rows: seq<seq<string>>)
    ensures |rows| >= 1
    decreases |s|
  {
    var r := Record(s);
    if |r.rest| > 0 && r.rest[0] == '\n' then [r.fields] + Records(r.rest[1..]) else [r.fields]
  }

  /** What may follow a field: nothing, a comma or a line feed. */
  predicate FieldEnd(t: string) {
    t == "" || t[0] == ',' || t[0] == '\n'
  }

  lemma {:induction false} UnquotedPlain(v: string, t: string)
    requires ',' !in v && '\n' !in v && FieldEnd(t)
    ensures Unquoted(v + t) == Cut(v, t)
    decreases |v|
  {
    if |v| == 0 {
      assert v + t == t;
    } else {
      assert (v + t)[0] == v[0] && (v + t)[1..] == v[1..] + t;
      UnquotedPlain(v[1..], t);
      assert [v[0]] + v[1..] == v;
    }
  }

  lemma {:induction false} QuotedBody(v: string, t: string)
    requires t == "" || t[0] != '"'
    ensures Quoted(DoubleQuotes(v) + "\"" + t) == Cut(v, t)
    decreases |v|
  {
    var s := DoubleQuotes(v) + "\"" + t;
    if |v| == 0 {
      assert s == "\"" + t;
      assert s[1..] == t;
    } else {
      var d := DoubleQuotes(v[1..]);
      QuotedBody(v[1..], t);
      if v[0] == '"' {
        assert s == "\"\"" + (d + "\"" + t);
        assert s[2..] == d + "\"" + t;
      } else {
        assert s == [v[0]] + (d + "\"" + t);
        assert s[1..] == d + "\"" + t;
      }
      assert [v[0]] + v[1..] == v;
    }
  }

  /** An escaped value followed by a separator reads back as the value. */
  lemma FieldOfEscaped(v: string, t: string)
    requires FieldEnd(t)
    ensures Field(EscapeCSV(v) + t) == Cut(v, t)
  {
    if NeedsQuoting(v) {
      var s := EscapeCSV(v) + t;
      assert s == "\"" + (DoubleQuotes(v) + "\"" + t);
      assert s[1..] == DoubleQuotes(v) + "\"" + t;
      QuotedBody(v, t);
    } else {
      UnquotedPlain(v, t);
      if |v| > 0 {
        assert (v + t)[0] == v[0];
      } else {
        assert v + t == t;
      }
    }
  }

  /** Each value escaped. */
  function EscapeAll(vs: seq<string>): (r: seq<string>)
    ensures |r| == |vs| && forall i :: 0 <= i < |vs| ==> r[i] == EscapeCSV(vs[i])
  {
    seq(|vs|, i requires 0 <= i < |vs| => EscapeCSV(vs[i]))
  }

  /** A record of escaped values reads back as the values. */
  lemma {:induction false} RecordOfEscaped(vs: seq<string>, t: string)
    requires |vs| >= 1 && (t == "" || t[0] == '\n')
    ensures Record(Join(EscapeAll(vs), ",") + t) == RecordCut(vs, t)
    decreases |vs|
  {
    if |vs| == 1 {
      FieldOfEscaped(vs[0], t);
    } else {
      var j := Join(EscapeAll(vs[1..]), ",");
      JoinEscapedCons(vs, t);
      RecordAfterField(vs[0], j + t);
      RecordOfEscaped(vs[1..], t);
      assert [vs[0]] + vs[1..] == vs;
    }
  }

  lemma JoinEscapedCons(vs: seq<string>, t: string)
    requires |vs| >= 2
    ensures Join(EscapeAll(vs), ",") + t == EscapeCSV(vs[0]) + ("," + (Join(EscapeAll(vs[1..]), ",") + t))
  {
    var e := EscapeAll(vs);
    assert e[1..] == EscapeAll(vs[1..]);
  }

  /** An escaped value and a comma: the record goes on with what follows. */
  lemma RecordAfterField(v: string, rest: string)
    ensures Record(EscapeCSV(v) + ("," + rest)) == RecordCut([v] + Record(rest).fields, Record(rest).rest)
  {
    FieldOfEscaped(v, "," + rest);
    assert ("," + rest)[1..] == rest;
  }

  /** Each record written as its escaped values joined by commas. */
  function Lines(rows: seq<seq<string>>): (r: seq<string>)
    ensures |r| == |rows| && forall i :: 0 <= i < |rows| ==> r[i] == Join(EscapeAll(rows[i]), ",")
  {
    seq(|rows|, i requires 0 <= i < |rows| => Join(EscapeAll(rows[i]), ","))
  }

  /** Records written with `escapeCSV`, commas and line feeds read back as
      those records, whatever commas, quotes and line feeds the values hold. */
  lemma {:induction false} RecordsOfLines(rows: seq<seq<string>>)
    requires |rows| >= 1 && forall i :: 0 <= i < |rows| ==> |rows[i]| >= 1
    ensures Records(Join(Lines(rows), "\n")) == rows
    decreases |rows|
  {
    var l := Lines(rows);
    if |rows| == 1 {
      RecordOfEscaped(rows[0], "");
      assert l[0] + "" == l[0];
    } else {
      var j := Join(Lines(rows[1..]), "\n");
      assert l[1..] == Lines(rows[1..]);
      assert Join(l, "\n") == l[0] + ("\n" + j);
      RecordOfEscaped(rows[0], "\n" + j);
      assert ("\n" + j)[1..] == j;
      RecordsOfLines(rows[1..]);
      assert [rows[0]] + rows[1..] == rows;
    }
  }

  // ---------------------------------------------------------------------
  // the CSV file

  const Headers: seq<string> := ["Name", "Active", "Hours", "Comment"]

  /** `row.active === undefined ? '' : row.active ? 'Yes' : 'No'`. */
  function ActiveCell(active: Option<bool>): (s: string)
    ensures s == "" <==> active.None?
    ensures active.Some? ==> (s == "Yes" <==> active.value)
  {
    match active
    case None => ""
    case Some(a) => if a then "Yes" else "No"
  }

  /** `row.hours ?? ''`. */
  function HoursCell(fmt: real -> string, hours: Option<real>): (s: string)
    ensures hours.None? ==> s == ""
    ensures hours.Some? ==> s == fmt(hours.value)
  {
    if hours.Some? then fmt(hours.value) else ""
  }

  /** `row.comment || ''`. */
  function CommentText(comment: Option<string>): string {
    comment.GetOr("")
  }

  /** The four values a row contributes, before any escaping. */
  function CsvValues(fmt: real -> string, row: CombinedData): seq<string> {
    [row.name, ActiveCell(row.active), HoursCell(fmt, row.hours), CommentText(row.comment)]
  }

  /** One CSV record: name and comment escaped, the other two cells as
      they are. */
  function CsvLine(fmt: real -> string, row: CombinedData): string {
    Join([EscapeCSV(row.name), ActiveCell(row.active), HoursCell(fmt, row.hours), EscapeCSV(CommentText(row.comment))], ",")
  }

  /** The content `exportToCsv` builds: the header line, then one line per
      row, in order, joined by line feeds. */
  function ExportToCsv(fmt: real -> string, data: seq<CombinedData>): string {
    Join([Join(Headers, ",")] + CsvLines(fmt, data), "\n")
  }

  /** One CSV record per row, in order. */
  function CsvLines(fmt: real -> string, data: seq<CombinedData>): (r: seq<string>)
    ensures |r| == |data| && forall i :: 0 <= i < |data| ==> r[i] == CsvLine(fmt, data[i])
  {
    seq(|data|, i requires 0 <= i < |data| => CsvLine(fmt, data[i]))
  }

  /** The values of each row, in order. */
  function ValueRows(fmt: real -> string, data: seq<CombinedData>): (r: seq<seq<string>>)
    ensures |r| == |data| && forall i :: 0 <= i < |data| ==> r[i] == CsvValues(fmt, data[i])
  {
    seq(|data|, i requires 0 <= i < |data| => CsvValues(fmt, data[i]))
  }

  /** A number prints without anything CSV would have to quote, which holds
      of every rendering of a JavaScript number. */
  predicate PlainNumbers(fmt: real -> string, data: seq<CombinedData>) {
    forall i :: 0 <= i < |data| && data[i].hours.Some? ==> !NeedsQuoting(fmt(data[i].hours.value))
  }

  lemma CsvLineIsRecord(fmt: real -> string, row: CombinedData)
    requires row.hours.Some? ==> !NeedsQuoting(fmt(row.hours.value))
    ensures CsvLine(fmt, row) == Join(EscapeAll(CsvValues(fmt, row)), ",")
  {
    var a := ActiveCell(row.active);
    assert !NeedsQuoting(a) by {
      assert a == "" || a == "Yes" || a == "No";
    }
    assert EscapeAll(CsvValues(fmt, row))
        == [EscapeCSV(row.name), ActiveCell(row.active), HoursCell(fmt, row.hours), EscapeCSV(CommentText(row.comment))];
  }

  /** Reading the CSV back gives the header record and then, per row in
      order, its name, Active cell, Hours cell and comment, unescaped. */
  lemma CsvRoundTrip(fmt: real -> string, data: seq<CombinedData>)
    requires PlainNumbers(fmt, data)
    ensures Records(ExportToCsv(fmt, data))
         == [Headers] + ValueRows(fmt, data)
  {
    var rows := [Headers] + ValueRows(fmt, data);
    CsvLinesAreLines(fmt, data, rows);
    RecordsOfLines(rows);
  }

  lemma HeadersNeedNoEscape()
    ensures Join(Headers, ",") == Join(EscapeAll(Headers), ",")
  {
    assert EscapeAll(Headers) == Headers by {
      assert forall i :: 0 <= i < 4 ==> !NeedsQuoting(Headers[i]);
    }
  }

  lemma CsvLinesAreLines(fmt: real -> string, data: seq<CombinedData>, rows: seq<seq<string>>)
    requires PlainNumbers(fmt, data)
    requires rows == [Headers] + ValueRows(fmt, data)
    ensures Lines(rows) == [Join(Headers, ",")] + CsvLines(fmt, data)
  {
    var l := Lines(rows);
    var want := [Join(Headers, ",")] + CsvLines(fmt, data);
    HeadersNeedNoEscape();
    forall j | 0 <= j < |l|
      ensures l[j] == want[j]
    {
      if j > 0 {
        assert rows[j] == CsvValues(fmt, data[j - 1]);
        CsvLineIsRecord(fmt, data[j - 1]);
      }
    }
  }

  /** The file opens with the header line. */
  lemma CsvStartsWithHeader(fmt: real -> string, data: seq<CombinedData>)
    ensures IsPrefix("Name,Active,Hours,Comment", ExportToCsv(fmt, data))
  {
    var lines := [Join(Headers, ",")] + CsvLines(fmt, data);
    HeaderLine();
    JoinStartsWithFirst(lines, "\n");
  }

  lemma HeaderLine()
    ensures Join(Headers, ",") == "Name,Active,Hours,Comment"
  {
  }

  // ---------------------------------------------------------------------
  // XML escaping

  /** `escapeXML`: five global replacements, ampersand first. */
  function EscapeXML(v: string): string {
    ReplaceChar(ReplaceChar(ReplaceChar(ReplaceChar(ReplaceChar(v,
      '&', "&amp;"), '<', "&lt;"), '>', "&gt;"), '"', "&quot;"), '\'', "&apos;")
  }

  /** The predefined entity of section 4.6 of XML 1.0 for a special
      character; any other character stands for itself. */
  function EntityOf(c: char): string {
    if c == '&' then "&amp;"
    else if c == '<' then "&lt;"
    else if c == '>' then "&gt;"
    else if c == '"' then "&quot;"
    else if c == '\'' then "&apos;"
    else [c]
  }

  /** The one-pass reference: every character replaced by its entity. */
  function EscapeEach(v: string): string
    decreases |v|
  {
    if |v| == 0 then "" else EntityOf(v[0]) + EscapeEach(v[1..])
  }

  lemma EscapeXMLConcat(a: string, b: string)
    ensures EscapeXML(a + b) == EscapeXML(a) + EscapeXML(b)
  {
    var s1a, s1b := ReplaceChar(a, '&', "&amp;"), ReplaceChar(b, '&', "&amp;");
    ReplaceCharConcat(a, b, '&', "&amp;");
    var s2a, s2b := ReplaceChar(s1a, '<', "&lt;"), ReplaceChar(s1b, '<', "&lt;");
    ReplaceCharConcat(s1a, s1b, '<', "&lt;");
    var s3a, s3b := ReplaceChar(s2a, '>', "&gt;"), ReplaceChar(s2b, '>', "&gt;");
    ReplaceCharConcat(s2a, s2b, '>', "&gt;");
    var s4a, s4b := ReplaceChar(s3a, '"', "&quot;"), ReplaceChar(s3b, '"', "&quot;");
    ReplaceCharConcat(s3a, s3b, '"', "&quot;");
    ReplaceCharConcat(s4a, s4b, '\'', "&apos;");
  }

  /** A later pass never rewrites what an earlier pass produced: an entity
      holds none of the characters still to be replaced. */
  lemma EscapeXMLChar(c: char)
    ensures EscapeXML([c]) == EntityOf(c)
  {
    ReplaceCharSingle(c, '&', "&amp;");
    if c == '&' {
      EntityPasses("&amp;", 1);
    } else {
      ReplaceCharSingle(c, '<', "&lt;");
      if c == '<' {
        EntityPasses("&lt;", 2);
      } else {
        ReplaceCharSingle(c, '>', "&gt;");
        if c == '>' {
          EntityPasses("&gt;", 3);
        } else {
          ReplaceCharSingle(c, '"', "&quot;");
          if c == '"' {
            EntityPasses("&quot;", 4);
          } else {
            ReplaceCharSingle(c, '\'', "&apos;");
          }
        }
      }
    }
  }

  /** The passes after pass `done` leave an entity alone. */
  lemma EntityPasses(e: string, done: nat)
    requires 1 <= done <= 4
    requires '<' !in e && '>' !in e && '"' !in e && '\'' !in e
    ensures done == 1 ==> ReplaceChar(ReplaceChar(ReplaceChar(ReplaceChar(e, '<', "&lt;"), '>', "&gt;"), '"', "&quot;"), '\'', "&apos;") == e
    ensures done == 2 ==> ReplaceChar(ReplaceChar(ReplaceChar(e, '>', "&gt;"), '"', "&quot;"), '\'', "&apos;") == e
    ensures done == 3 ==> ReplaceChar(ReplaceChar(e, '"', "&quot;"), '\'', "&apos;") == e
    ensures done == 4 ==> ReplaceChar(e, '\'', "&apos;") == e
  {
    ReplaceCharAbsent(e, '<', "&lt;");
    ReplaceCharAbsent(e, '>', "&gt;");
    ReplaceCharAbsent(e, '"', "&quot;");
    ReplaceCharAbsent(e, '\'', "&apos;");
  }

  /** The five sequential passes equal the one-pass escape: there is no
      double escaping. */
  lemma {:induction false} EscapeXMLIsEscapeEach(v: string)
    ensures EscapeXML(v) == EscapeEach(v)
    decreases |v|
  {
    if |v| == 0 {
      assert EscapeXML(v) == "";
    } else {
      assert v == [v[0]] + v[1..];
      EscapeXMLConcat([v[0]], v[1..]);
      EscapeXMLChar(v[0]);
      EscapeXMLIsEscapeEach(v[1..]);
    }
  }

  /** `s` opens with one of the five predefined entities. */
  predicate StartsEntity(s: string) {
    IsPrefix("&amp;", s) || IsPrefix("&lt;", s) || IsPrefix("&gt;", s) || IsPrefix("&quot;", s) || IsPrefix("&apos;", s)
  }

  /** No raw `<`, `>`, `"` or `'`, and every `&` opens an entity. */
  predicate WellEscaped(s: string) {
    forall i :: 0 <= i < |s| ==>
      && s[i] != '<' && s[i] != '>' && s[i] != '"' && s[i] != '\''
      && (s[i] == '&' ==> StartsEntity(s[i..]))
  }

  lemma StartsEntityExtends(s: string, t: string)
    requires StartsEntity(s)
    ensures StartsEntity(s + t)
  {
    var p := s + t;
    if IsPrefix("&amp;", s) { assert p[..5] == s[..5]; }
    else if IsPrefix("&lt;", s) { assert p[..4] == s[..4]; }
    else if IsPrefix("&gt;", s) { assert p[..4] == s[..4]; }
    else if IsPrefix("&quot;", s) { assert p[..6] == s[..6]; }
    else { assert p[..6] == s[..6]; }
  }

  lemma WellEscapedConcat(a: string, b: string)
    requires WellEscaped(a) && WellEscaped(b)
    ensures WellEscaped(a + b)
  {
    var s := a + b;
    forall i | 0 <= i < |s| && s[i] == '&'
      ensures StartsEntity(s[i..])
    {
      if i < |a| {
        assert s[i..] == a[i..] + b;
        StartsEntityExtends(a[i..], b);
      } else {
        assert s[i..] == b[i - |a|..];
      }
    }
  }

  lemma EntityWellEscaped(c: char)
    ensures WellEscaped(EntityOf(c))
  {
    var e := EntityOf(c);
    if c == '&' || c == '<' || c == '>' || c == '"' || c == '\'' {
      assert e[1..] != [] && forall i :: 1 <= i < |e| ==> e[i] != '&' && e[i] != '<' && e[i] != '>' && e[i] != '"' && e[i] != '\'';
      assert e[0..] == e;
    }
  }

  lemma {:induction false} EscapeEachWellEscaped(v: string)
    ensures WellEscaped(EscapeEach(v))
    decreases |v|
  {
    if |v| > 0 {
      EntityWellEscaped(v[0]);
      EscapeEachWellEscaped(v[1..]);
      WellEscapedConcat(EntityOf(v[0]), EscapeEach(v[1..]));
    }
  }

  /** The output of `escapeXML` is well escaped, whatever the input. */
  lemma EscapeXMLWellEscaped(v: string)
    ensures WellEscaped(EscapeXML(v))
  {
    EscapeXMLIsEscapeEach(v);
    EscapeEachWellEscaped(v);
  }

  /** A string with none of the five characters is left alone. */
  lemma EscapeXMLIdentity(v: string)
    requires '&' !in v && '<' !in v && '>' !in v && '"' !in v && '\'' !in v
    ensures EscapeXML(v) == v
  {
    ReplaceCharAbsent(v, '&', "&amp;");
    ReplaceCharAbsent(v, '<', "&lt;");
    ReplaceCharAbsent(v, '>', "&gt;");
    ReplaceCharAbsent(v, '"', "&quot;");
    ReplaceCharAbsent(v, '\'', "&apos;");
  }

  /** One character read back, and how much of the text it took. */
  datatype Token = Token(c: char, width: nat)

  /** The next character of an XML text: a predefined entity or a plain
      character. */
  function NextToken(s: string): (t: Token)
    requires |s| > 0
    ensures 1 <= t.width <= |s|
  {
    if IsPrefix("&amp;", s) then Token('&', 5)
    else if IsPrefix("&lt;", s) then Token('<', 4)
    else if IsPrefix("&gt;", s) then Token('>', 4)
    else if IsPrefix("&quot;", s) then Token('"', 6)
    else if IsPrefix("&apos;", s) then Token('\'', 6)
    else Token(s[0], 1)
  }

  /** Reading entities back, as an XML processor does. */
  function UnescapeXML(s: string): string
    decreases |s|
  {
    if |s| == 0 then "" else var t := NextToken(s); [t.c] + UnescapeXML(s[t.width..])
  }

  lemma TokenAmp(rest: string)
    ensures NextToken("&amp;" + rest) == Token('&', 5)
  {
    assert ("&amp;" + rest)[..5] == "&amp;";
  }

  /** The two four-character entities, `&lt;` and `&gt;`. */
  lemma TokenAngle(c: char, rest: string)
    requires c == '<' || c == '>'
    ensures NextToken(EntityOf(c) + rest) == Token(c, 4)
  {
    var s := EntityOf(c) + rest;
    assert s[1] == EntityOf(c)[1];
    assert s[..4] == EntityOf(c);
  }

  lemma TokenQuot(rest: string)
    ensures NextToken("&quot;" + rest) == Token('"', 6)
  {
    var s := "&quot;" + rest;
    assert s[1] == 'q';
    assert s[..6] == "&quot;";
  }

  lemma TokenApos(rest: string)
    ensures NextToken("&apos;" + rest) == Token('\'', 6)
  {
    var s := "&apos;" + rest;
    assert s[1] == 'a' && s[2] == 'p';
    assert s[..6] == "&apos;";
  }

  /** An entity, or a character that needs none, reads back as its
      character and nothing more. */
  lemma TokenOfEntity(c: char, rest: string)
    ensures NextToken(EntityOf(c) + rest) == Token(c, |EntityOf(c)|)
  {
    if c == '&' { TokenAmp(rest); }
    else if c == '<' || c == '>' { TokenAngle(c, rest); }
    else if c == '"' { TokenQuot(rest); }
    else if c == '\'' { TokenApos(rest); }
    else {
      assert ([c] + rest)[0] == c;
    }
  }

  lemma UnescapeEntity(c: char, rest: string)
    ensures UnescapeXML(EntityOf(c) + rest) == [c] + UnescapeXML(rest)
  {
    var s := EntityOf(c) + rest;
    TokenOfEntity(c, rest);
    assert s[|EntityOf(c)|..] == rest;
  }

  /** Reading back an escaped value gives the value. */
  lemma {:induction false} EscapeXMLRoundTrip(v: string)
    ensures UnescapeXML(EscapeXML(v)) == v
    decreases |v|
  {
    EscapeXMLIsEscapeEach(v);
    if |v| > 0 {
      UnescapeEntity(v[0], EscapeEach(v[1..]));
      EscapeXMLRoundTrip(v[1..]);
      EscapeXMLIsEscapeEach(v[1..]);
      assert [v[0]] + v[1..] == v;
    }
  }

  // ---------------------------------------------------------------------
  // the SpreadsheetML file

  /** The document up to and including the opening tag of the header row. */
  const Prelude :=
    "<?xml version=\"1.0\"?>\n"
    + "<Workbook xmlns=\"urn:schemas-microsoft-com:office:spreadsheet\"\n"
    + " xmlns:o=\"urn:schemas-microsoft-com:office:office\"\n"
    + " xmlns:x=\"urn:schemas-microsoft-com:office:excel\"\n"
    + " xmlns:ss=\"urn:schemas-microsoft-com:office:spreadsheet\"\n"
    + " xmlns:html=\"http://www.w3.org/TR/REC-html40\">\n"
    + " <DocumentProperties xmlns=\"urn:schemas-microsoft-com:office:office\">\n"
    + "  <Title>AI Reporter Data</Title>\n"
    + " </DocumentProperties>\n"
    + " <Worksheet ss:Name=\"Publishers\">\n"
    + "  <Table>\n"
    + "   <Row>"

  const Epilogue := "\n  </Table>\n </Worksheet>\n</Workbook>"

  /** One cell of the given `ss:Type`. */
  function Cell(kind: string, content: string): string {
    CellOpen + kind + "\">" + content + CellClose
  }

  const CellOpen := "<Cell><Data ss:Type=\""
  const CellClose := "</Data></Cell>"

  /** The header cells, closed by `</Row>`. */
  function HeaderCells(): string {
    Cell("String", Headers[0]) + Cell("String", Headers[1]) + Cell("String", Headers[2]) + Cell("String", Headers[3]) + "</Row>"
  }

  /** One data row: name and comment escaped, the Active and Hours cells as
      in the CSV, the Hours cell typed as a number. */
  function XmlRow(fmt: real -> string, row: CombinedData): string {
    "<Row>"
    + Cell("String", EscapeXML(row.name))
    + Cell("String", ActiveCell(row.active))
    + Cell("Number", HoursCell(fmt, row.hours))
    + Cell("String", EscapeXML(CommentText(row.comment)))
    + "</Row>"
  }

  function XmlRows(fmt: real -> string, data: seq<CombinedData>): string
    decreases |data|
  {
    if |data| == 0 then "" else XmlRows(fmt, data[..|data| - 1]) + XmlRow(fmt, data[|data| - 1])
  }

  /** The content `exportToExcel` builds. */
  function ExportToExcel(fmt: real -> string, data: seq<CombinedData>): string {
    Prelude + HeaderCells() + XmlRows(fmt, data) + Epilogue
  }

  /** The code as written: the prelude, the header cells appended one by one,
      then one row per element appended in order. */
  method ExportToExcelLoop(fmt: real -> string, data: seq<CombinedData>) returns (excelContent: string)
    ensures excelContent == ExportToExcel(fmt, data)
  {
    excelContent := Prelude;
    excelContent := AppendHeaderCells(excelContent);
    excelContent := excelContent + "</Row>";
    excelContent := AppendRows(fmt, data, excelContent);
    excelContent := excelContent + Epilogue;
  }

  /** The `headers.forEach` of the code. */
  method AppendHeaderCells(start: string) returns (s: string)
    ensures s + "</Row>" == start + HeaderCells()
  {
    s := start;
    var h := 0;
    assert start + "" == start;
    while h < |Headers|
      invariant 0 <= h <= |Headers|
      invariant s == start + HeaderPrefix(h)
    {
      ConcatAssoc(start, HeaderPrefix(h), Cell("String", Headers[h]));
      s := s + Cell("String", Headers[h]);
      h := h + 1;
    }
    HeaderPrefixComplete();
    ConcatAssoc(start, HeaderPrefix(|Headers|), "</Row>");
  }

  lemma HeaderPrefixComplete()
    ensures HeaderPrefix(|Headers|) + "</Row>" == HeaderCells()
  {
    assert HeaderPrefix(1) == Cell("String", Headers[0]);
    assert HeaderPrefix(2) == HeaderPrefix(1) + Cell("String", Headers[1]);
    assert HeaderPrefix(3) == HeaderPrefix(2) + Cell("String", Headers[2]);
    assert HeaderPrefix(4) == HeaderPrefix(3) + Cell("String", Headers[3]);
  }

  /** The `data.forEach` of the code. */
  method AppendRows(fmt: real -> string, data: seq<CombinedData>, start: string) returns (s: string)
    ensures s == start + XmlRows(fmt, data)
  {
    s := start;
    var k := 0;
    assert start + "" == start;
    while k < |data|
      invariant 0 <= k <= |data|
      invariant s == start + XmlRows(fmt, data[..k])
    {
      XmlRowsStep(fmt, data, k);
      ConcatAssoc(start, XmlRows(fmt, data[..k]), XmlRow(fmt, data[k]));
      s := s + XmlRow(fmt, data[k]);
      k := k + 1;
    }
    assert data[..k] == data;
  }

  lemma XmlRowsStep(fmt: real -> string, data: seq<CombinedData>, k: nat)
    requires k < |data|
    ensures XmlRows(fmt, data[..k + 1]) == XmlRows(fmt, data[..k]) + XmlRow(fmt, data[k])
  {
    assert data[..k + 1][..k] == data[..k];
  }

  /** The first `n` header cells. */
  function HeaderPrefix(n: nat): string
    requires n <= |Headers|
  {
    if n == 0 then "" else HeaderPrefix(n - 1) + Cell("String", Headers[n - 1])
  }

  /** The rows part is the concatenation of the rows' markup in order:
      appending a row to the data appends its markup. */
  lemma XmlRowsSnoc(fmt: real -> string, data: seq<CombinedData>, row: CombinedData)
    ensures XmlRows(fmt, data + [row]) == XmlRows(fmt, data) + XmlRow(fmt, row)
  {
    assert (data + [row])[..|data|] == data;
  }

  /** A text without `&` is read back unchanged. */
  lemma {:induction false} UnescapePlain(v: string)
    requires '&' !in v
    ensures UnescapeXML(v) == v
    decreases |v|
  {
    if |v| > 0 {
      assert v[0] in v;
      NotEntityStart(v);
      assert forall c :: c in v[1..] ==> c in v;
      UnescapePlain(v[1..]);
      assert [v[0]] + v[1..] == v;
    }
  }

  lemma NotEntityStart(v: string)
    requires |v| > 0 && v[0] != '&'
    ensures NextToken(v) == Token(v[0], 1)
  {
  }
}
