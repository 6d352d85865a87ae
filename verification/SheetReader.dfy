/** A reader for the SpreadsheetML markup `exportToExcel` writes, stated over
    the document's fixed markup and the entity decoder as parameters: rows
    of cells, each cell an `ss:Type` attribute and a content without tags.
    Reading a written document back gives the cells' decoded contents, row
    by row. */
module SheetReader {
  import opened Wrappers
  import opened Strings

  /** The fixed markup: the text before the header cells, the row and cell
      delimiters, and the text after the last row. */
  datatype Tags = Tags(prelude: string, rowOpen: string, rowClose: string,
                       cellOpen: string, cellClose: string, epilogue: string)

  /** What the reader relies on: a cell's close opens a tag, a row's close
      and a cell's opening differ at their second character, and the close
      of the document does not open a row. */
  predicate Distinct(t: Tags) {
    && |t.cellClose| > 0 && t.cellClose[0] == '<'
    && |t.rowClose| > 1 && |t.cellOpen| > 1 && t.rowClose[1] != t.cellOpen[1]
    && |t.rowOpen| > 0 && |t.epilogue| > 0 && t.rowOpen[0] != t.epilogue[0]
  }

  /** One cell to be written: its `ss:Type` and its content as written. */
  datatype CellSpec = CellSpec(kind: string, content: string)

  // ---------------------------------------------------------------------
  // the writer

  function CellText(t: Tags, c: CellSpec): string {
    t.cellOpen + c.kind + "\">" + c.content + t.cellClose
  }

  /** The cells written one after another. */
  function CellsText(t: Tags, cs: seq<CellSpec>): string
    decreases |cs|
  {
    if |cs| == 0 then "" else CellText(t, cs[0]) + CellsText(t, cs[1..])
  }

  function RowText(t: Tags, cs: seq<CellSpec>): string {
    t.rowOpen + CellsText(t, cs) + t.rowClose
  }

  /** The rows written one after another. */
  function RowsText(t: Tags, rows: seq<seq<CellSpec>>): string
    decreases |rows|
  {
    if |rows| == 0 then "" else RowText(t, rows[0]) + RowsText(t, rows[1..])
  }

  /** A document: the prelude, which opens the header row, the header
      cells and the row's close, the data rows, the epilogue. */
  function Document(t: Tags, header: seq<CellSpec>, rows: seq<seq<CellSpec>>): string {
    t.prelude + CellsText(t, header) + t.rowClose + RowsText(t, rows) + t.epilogue
  }

  // ---------------------------------------------------------------------
  // the reader

  /** A value read off the front of a text, and what follows it. */
  datatype Taken<T> = Taken(value: T, rest: string)

  /** The text before the first `c`, and the rest from that `c` on. */
  function Before(s: string, c: char): (r: Taken<string>)
    ensures |r.rest| <= |s|
    decreases |s|
  {
    if |s| == 0 || s[0] == c then Taken("", s)
    else var r := Before(s[1..], c); Taken([s[0]] + r.value, r.rest)
  }

  /** One cell: the opening markup, an attribute value up to its closing
      quote and the `">` after it, a content up to the next tag, the cell's
      close; the content decoded. */
  function ReadCell(t: Tags, decode: string -> string, s: string): (r: Option<Taken<string>>)
    ensures r.Some? ==> |r.value.rest| < |s|
  {
    if !IsPrefix(t.cellOpen, s) then None
    else
      var kind := Before(s[|t.cellOpen|..], '"');
      if !IsPrefix("\">", kind.rest) then None
      else
        var content := Before(kind.rest[2..], '<');
        if !IsPrefix(t.cellClose, content.rest) then None
        else Some(Taken(decode(content.value), content.rest[|t.cellClose|..]))
  }

  /** The cells of a row up to and including the row's close. */
  function ReadCells(t: Tags, decode: string -> string, s: string): (r: Option<Taken<seq<string>>>)
    ensures r.Some? ==> |r.value.rest| <= |s|
    decreases |s|
  {
    if IsPrefix(t.rowClose, s) then Some(Taken([], s[|t.rowClose|..]))
    else match ReadCell(t, decode, s)
      case None => None
      case Some(c) =>
        match ReadCells(t, decode, c.rest)
        case None => None
        case Some(more) => Some(Taken([c.value] + more.value, more.rest))
  }

  /** Complete rows, as long as the text opens one. */
  function ReadRows(t: Tags, decode: string -> string, s: string): (r: Option<Taken<seq<seq<string>>>>)
    decreases |s|
  {
    if !IsPrefix(t.rowOpen, s) || |t.rowOpen| == 0 then Some(Taken([], s))
    else match ReadCells(t, decode, s[|t.rowOpen|..])
      case None => None
      case Some(row) =>
        match ReadRows(t, decode, row.rest)
        case None => None
        case Some(more) => Some(Taken([row.value] + more.value, more.rest))
  }

  /** A whole document as the decoded cells of its rows, header row first;
      anything but the epilogue after the last row is rejected. */
  function ReadDocument(t: Tags, decode: string -> string, s: string): Option<seq<seq<string>>> {
    if !IsPrefix(t.prelude, s) then None
    else match ReadCells(t, decode, s[|t.prelude|..])
      case None => None
      case Some(header) =>
        match ReadRows(t, decode, header.rest)
        case None => None
        case Some(rows) => if rows.rest == t.epilogue then Some([header.value] + rows.value) else None
  }

  // ---------------------------------------------------------------------
  // reading back what was written

  /** No type holds a quote and no content a tag. */
  predicate Readable(cs: seq<CellSpec>) {
    forall i :: 0 <= i < |cs| ==> '"' !in cs[i].kind && '<' !in cs[i].content
  }

  predicate AllReadable(rows: seq<seq<CellSpec>>) {
    forall i :: 0 <= i < |rows| ==> Readable(rows[i])
  }

  /** What a reader makes of each cell. */
  function Values(decode: string -> string, cs: seq<CellSpec>): (r: seq<string>)
    ensures |r| == |cs| && forall i :: 0 <= i < |cs| ==> r[i] == decode(cs[i].content)
  {
    seq(|cs|, i requires 0 <= i < |cs| => decode(cs[i].content))
  }

  function AllValues(decode: string -> string, rows: seq<seq<CellSpec>>): (r: seq<seq<string>>)
    ensures |r| == |rows| && forall i :: 0 <= i < |rows| ==> r[i] == Values(decode, rows[i])
  {
    seq(|rows|, i requires 0 <= i < |rows| => Values(decode, rows[i]))
  }

  /** Reading a written document back gives the header cells' values and
      then each row's, in order. */
  lemma DocumentRoundTrip(t: Tags, decode: string -> string, header: seq<CellSpec>, rows: seq<seq<CellSpec>>)
    requires Distinct(t) && Readable(header) && AllReadable(rows)
    ensures ReadDocument(t, decode, Document(t, header, rows)) == Some([Values(decode, header)] + AllValues(decode, rows))
  {
    var after := RowsText(t, rows) + t.epilogue;
    var body := CellsText(t, header) + (t.rowClose + after);
    assert Document(t, header, rows) == t.prelude + body;
    Skip(t.prelude, body);
    CellsRead(t, decode, header, after);
    RowsRead(t, decode, rows);
  }

  lemma Skip(p: string, x: string)
    ensures IsPrefix(p, p + x) && (p + x)[|p|..] == x
  {
    assert (p + x)[..|p|] == p;
  }

  lemma {:induction false} BeforeFree(v: string, c: char, s: string)
    requires c !in v && |s| > 0 && s[0] == c
    ensures Before(v + s, c) == Taken(v, s)
    decreases |v|
  {
    if |v| == 0 {
      assert v + s == s;
    } else {
      assert (v + s)[0] == v[0];
      assert (v + s)[1..] == v[1..] + s;
      BeforeFree(v[1..], c, s);
      assert [v[0]] + v[1..] == v;
    }
  }

  /** A readable cell reads back as its decoded content, and nothing after
      it is taken. */
  lemma CellRead(t: Tags, decode: string -> string, c: CellSpec, s: string)
    requires Distinct(t) && '"' !in c.kind && '<' !in c.content
    ensures ReadCell(t, decode, CellText(t, c) + s) == Some(Taken(decode(c.content), s))
  {
    var afterKind := "\">" + c.content + t.cellClose + s;
    var x := t.cellOpen + (c.kind + afterKind);
    assert CellText(t, c) + s == x;
    Skip(t.cellOpen, c.kind + afterKind);
    BeforeFree(c.kind, '"', afterKind);
    Skip("\">", c.content + t.cellClose + s);
    assert afterKind[2..] == c.content + (t.cellClose + s);
    BeforeFree(c.content, '<', t.cellClose + s);
    Skip(t.cellClose, s);
  }

  /** A readable cell in front of the rest of a row adds its value. */
  lemma CellsStep(t: Tags, decode: string -> string, c: CellSpec, s: string)
    requires Distinct(t) && '"' !in c.kind && '<' !in c.content
    requires ReadCells(t, decode, s).Some?
    ensures ReadCells(t, decode, CellText(t, c) + s)
         == Some(Taken([decode(c.content)] + ReadCells(t, decode, s).value.value, ReadCells(t, decode, s).value.rest))
  {
    var x := CellText(t, c) + s;
    assert x[1] == t.cellOpen[1];
    DifferAt(x, t.rowClose, 1);
    CellRead(t, decode, c, s);
  }

  /** Readable cells and the close of their row read back as the cells'
      values, and nothing after the close is taken. */
  lemma {:induction false} CellsRead(t: Tags, decode: string -> string, cs: seq<CellSpec>, s: string)
    requires Distinct(t) && Readable(cs)
    ensures ReadCells(t, decode, CellsText(t, cs) + (t.rowClose + s)) == Some(Taken(Values(decode, cs), s))
    decreases |cs|
  {
    if |cs| == 0 {
      assert CellsText(t, cs) + (t.rowClose + s) == t.rowClose + s;
      Skip(t.rowClose, s);
    } else {
      var rest := CellsText(t, cs[1..]) + (t.rowClose + s);
      ReadableTail(cs);
      CellsRead(t, decode, cs[1..], s);
      CellsStep(t, decode, cs[0], rest);
      ConcatAssoc(CellText(t, cs[0]), CellsText(t, cs[1..]), t.rowClose + s);
      ValuesCons(decode, cs);
    }
  }

  lemma ReadableTail(cs: seq<CellSpec>)
    requires Readable(cs) && |cs| > 0
    ensures Readable(cs[1..]) && '"' !in cs[0].kind && '<' !in cs[0].content
  {
    forall i | 0 <= i < |cs[1..]| ensures cs[1..][i] == cs[i + 1] { }
  }

  lemma ValuesCons(decode: string -> string, cs: seq<CellSpec>)
    requires |cs| > 0
    ensures Values(decode, cs) == [decode(cs[0].content)] + Values(decode, cs[1..])
  {
  }

  /** A readable row in front of readable rows adds its values. */
  lemma RowsStep(t: Tags, decode: string -> string, cs: seq<CellSpec>, s: string)
    requires Distinct(t) && Readable(cs)
    requires ReadRows(t, decode, s).Some?
    ensures ReadRows(t, decode, RowText(t, cs) + s)
         == Some(Taken([Values(decode, cs)] + ReadRows(t, decode, s).value.value, ReadRows(t, decode, s).value.rest))
  {
    var cells := CellsText(t, cs) + (t.rowClose + s);
    assert RowText(t, cs) + s == t.rowOpen + cells;
    Skip(t.rowOpen, cells);
    CellsRead(t, decode, cs, s);
  }

  /** The rows and the epilogue read back as the rows' values and the
      epilogue. */
  lemma {:induction false} RowsRead(t: Tags, decode: string -> string, rows: seq<seq<CellSpec>>)
    requires Distinct(t) && AllReadable(rows)
    ensures ReadRows(t, decode, RowsText(t, rows) + t.epilogue) == Some(Taken(AllValues(decode, rows), t.epilogue))
    decreases |rows|
  {
    if |rows| == 0 {
      assert RowsText(t, rows) + t.epilogue == t.epilogue;
    } else {
      AllReadableTail(rows);
      RowsRead(t, decode, rows[1..]);
      RowsStep(t, decode, rows[0], RowsText(t, rows[1..]) + t.epilogue);
      ConcatAssoc(RowText(t, rows[0]), RowsText(t, rows[1..]), t.epilogue);
      AllValuesCons(decode, rows);
    }
  }

  lemma AllReadableTail(rows: seq<seq<CellSpec>>)
    requires AllReadable(rows) && |rows| > 0
    ensures AllReadable(rows[1..]) && Readable(rows[0])
  {
    forall i | 0 <= i < |rows[1..]| ensures rows[1..][i] == rows[i + 1] { }
  }

  lemma AllValuesCons(decode: string -> string, rows: seq<seq<CellSpec>>)
    requires |rows| > 0
    ensures AllValues(decode, rows) == [Values(decode, rows[0])] + AllValues(decode, rows[1..])
  {
  }

  /** Appending a row to the data appends its markup. */
  lemma {:induction false} RowsTextSnoc(t: Tags, rows: seq<seq<CellSpec>>, cs: seq<CellSpec>)
    ensures RowsText(t, rows + [cs]) == RowsText(t, rows) + RowText(t, cs)
    decreases |rows|
  {
    if |rows| == 0 {
      assert rows + [cs] == [cs];
      assert [cs][1..] == [];
    } else {
      assert (rows + [cs])[1..] == rows[1..] + [cs];
      RowsTextSnoc(t, rows[1..], cs);
    }
  }

  /** Four cells written as their text. */
  lemma FourCellsText(t: Tags, a: CellSpec, b: CellSpec, c: CellSpec, d: CellSpec)
    ensures CellsText(t, [a, b, c, d]) == CellText(t, a) + CellText(t, b) + CellText(t, c) + CellText(t, d)
  {
    assert [a, b, c, d][1..] == [b, c, d];
    assert [b, c, d][1..] == [c, d];
    assert [c, d][1..] == [d];
    assert [d][1..] == [];
    assert CellsText(t, [d]) == CellText(t, d) + "" == CellText(t, d);
    assert CellsText(t, [c, d]) == CellText(t, c) + CellText(t, d);
  }

  /** Cells whose contents decode to the given values. */
  lemma ValuesAre(decode: string -> string, cs: seq<CellSpec>, vs: seq<string>)
    requires |cs| == |vs| && forall k :: 0 <= k < |cs| ==> decode(cs[k].content) == vs[k]
    ensures Values(decode, cs) == vs
  {
  }
}
