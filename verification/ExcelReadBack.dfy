/** The SpreadsheetML file of `src/lib/services/ExportService.ts` read back
    with the reader of `SheetReader`: the file `exportToExcel` builds is a
    document of that reader, and reading it gives the header row and each
    row's values. */
module ExcelReadBack {
  import opened Wrappers
  import opened Types
  import opened SheetReader
  import opened Export

  /** The fixed markup of the file `exportToExcel` builds. */
  const XmlTags := Tags(Prelude, "<Row>", "</Row>", CellOpen, CellClose, Epilogue)

  /** The file read back as an XML processor reads it: each row's cell
      values, entities decoded, header row first. */
  function ReadWorkbook(s: string): Option<seq<seq<string>>> {
    ReadDocument(XmlTags, UnescapeXML, s)
  }

  /** The header cells as written: each name a text cell. */
  function HeaderSpecs(names: seq<string>): (r: seq<CellSpec>)
    ensures |r| == |names| && forall i :: 0 <= i < |names| ==> r[i] == CellSpec("String", names[i])
  {
    seq(|names|, i requires 0 <= i < |names| => CellSpec("String", names[i]))
  }

  /** A data row's cells as written. */
  function RowSpecs(fmt: real -> string, row: CombinedData): seq<CellSpec> {
    [CellSpec("String", EscapeXML(row.name)), CellSpec("String", ActiveCell(row.active)),
     CellSpec("Number", HoursCell(fmt, row.hours)), CellSpec("String", EscapeXML(CommentText(row.comment)))]
  }

  function SpecRows(fmt: real -> string, data: seq<CombinedData>): (r: seq<seq<CellSpec>>)
    ensures |r| == |data| && forall i :: 0 <= i < |data| ==> r[i] == RowSpecs(fmt, data[i])
  {
    seq(|data|, i requires 0 <= i < |data| => RowSpecs(fmt, data[i]))
  }

  /** A number prints without a character XML reads specially, which holds
      of every rendering of a JavaScript number. */
  predicate XmlPlainNumbers(fmt: real -> string, data: seq<CombinedData>) {
    forall i :: 0 <= i < |data| && data[i].hours.Some? ==>
      '<' !in fmt(data[i].hours.value) && '&' !in fmt(data[i].hours.value)
  }

  /** Reading the workbook back gives the header row and then, per row in
      order, its name, Active cell, Hours cell and comment, with the
      entities `escapeXML` introduced decoded. */
  lemma ExcelRoundTrip(fmt: real -> string, data: seq<CombinedData>)
    requires XmlPlainNumbers(fmt, data)
    ensures ReadWorkbook(ExportToExcel(fmt, data)) == Some([Headers] + ValueRows(fmt, data))
  {
    XmlTagsAre();
    DocumentReadBack(XmlTags, fmt, data);
  }

  /** The fields of the markup, named. */
  predicate IsXmlTags(t: Tags) {
    && t.prelude == Prelude && t.rowOpen == "<Row>" && t.rowClose == "</Row>"
    && t.cellOpen == CellOpen && t.cellClose == CellClose && t.epilogue == Epilogue
  }

  lemma XmlTagsAre()
    ensures IsXmlTags(XmlTags)
  {
  }

  lemma DocumentReadBack(t: Tags, fmt: real -> string, data: seq<CombinedData>)
    requires IsXmlTags(t) && XmlPlainNumbers(fmt, data)
    ensures ReadDocument(t, UnescapeXML, ExportToExcel(fmt, data)) == Some([Headers] + ValueRows(fmt, data))
  {
    var rows := SpecRows(fmt, data);
    ExcelIsDocument(t, fmt, data);
    XmlTagsDistinct(t);
    HeaderNamesPlain();
    HeaderValues(Headers);
    RowsValues(fmt, data);
    DocumentRoundTrip(t, UnescapeXML, HeaderSpecs(Headers), rows);
  }

  lemma XmlTagsDistinct(t: Tags)
    requires IsXmlTags(t)
    ensures Distinct(t)
  {
    assert CellClose[0] == '<' && CellOpen[1] == 'C' && Epilogue[0] == '\n';
  }

  lemma HeaderNamesPlain()
    ensures forall k :: 0 <= k < |Headers| ==> '&' !in Headers[k] && '<' !in Headers[k]
  {
  }

  lemma RowsValues(fmt: real -> string, data: seq<CombinedData>)
    requires XmlPlainNumbers(fmt, data)
    ensures AllReadable(SpecRows(fmt, data)) && AllValues(UnescapeXML, SpecRows(fmt, data)) == ValueRows(fmt, data)
  {
    var rows := SpecRows(fmt, data);
    forall i | 0 <= i < |data|
      ensures Readable(rows[i]) && Values(UnescapeXML, rows[i]) == ValueRows(fmt, data)[i]
    {
      RowValues(fmt, data[i]);
    }
  }

  /** Names free of `&` and `<` make readable header cells that decode to
      the names. */
  lemma HeaderValues(names: seq<string>)
    requires forall k :: 0 <= k < |names| ==> '&' !in names[k] && '<' !in names[k]
    ensures Readable(HeaderSpecs(names)) && Values(UnescapeXML, HeaderSpecs(names)) == names
  {
    var h := HeaderSpecs(names);
    forall k | 0 <= k < |names|
      ensures '"' !in h[k].kind && UnescapeXML(h[k].content) == names[k]
    {
      UnescapePlain(names[k]);
    }
    ValuesAre(UnescapeXML, h, names);
  }

  /** A data row's cells are readable, and they decode to the row's values. */
  lemma RowValues(fmt: real -> string, row: CombinedData)
    requires row.hours.Some? ==> '<' !in fmt(row.hours.value) && '&' !in fmt(row.hours.value)
    ensures Readable(RowSpecs(fmt, row)) && Values(UnescapeXML, RowSpecs(fmt, row)) == CsvValues(fmt, row)
  {
    RowReadable(fmt, row);
    RowDecodes(fmt, row);
  }

  lemma RowReadable(fmt: real -> string, row: CombinedData)
    requires row.hours.Some? ==> '<' !in fmt(row.hours.value) && '&' !in fmt(row.hours.value)
    ensures Readable(RowSpecs(fmt, row))
  {
    EscapedHasNoTag(row.name);
    EscapedHasNoTag(CommentText(row.comment));
    PlainCells(fmt, row);
  }

  lemma RowDecodes(fmt: real -> string, row: CombinedData)
    requires row.hours.Some? ==> '<' !in fmt(row.hours.value) && '&' !in fmt(row.hours.value)
    ensures Values(UnescapeXML, RowSpecs(fmt, row)) == CsvValues(fmt, row)
  {
    PlainCells(fmt, row);
    EscapeXMLRoundTrip(row.name);
    EscapeXMLRoundTrip(CommentText(row.comment));
    ValuesAre(UnescapeXML, RowSpecs(fmt, row), CsvValues(fmt, row));
  }

  lemma EscapedHasNoTag(v: string)
    ensures '<' !in EscapeXML(v)
  {
    EscapeXMLWellEscaped(v);
  }

  /** The Active and Hours cells need no decoding. */
  lemma PlainCells(fmt: real -> string, row: CombinedData)
    requires row.hours.Some? ==> '<' !in fmt(row.hours.value) && '&' !in fmt(row.hours.value)
    ensures '<' !in ActiveCell(row.active) && UnescapeXML(ActiveCell(row.active)) == ActiveCell(row.active)
    ensures '<' !in HoursCell(fmt, row.hours) && UnescapeXML(HoursCell(fmt, row.hours)) == HoursCell(fmt, row.hours)
  {
    var active := ActiveCell(row.active);
    assert active == "" || active == "Yes" || active == "No";
    UnescapePlain(active);
    UnescapePlain(HoursCell(fmt, row.hours));
  }

  /** The file is the document the reader expects, with the header and the
      data rows' cells as written. */
  lemma ExcelIsDocument(t: Tags, fmt: real -> string, data: seq<CombinedData>)
    requires IsXmlTags(t)
    ensures ExportToExcel(fmt, data) == Document(t, HeaderSpecs(Headers), SpecRows(fmt, data))
  {
    HeaderIsCellsText(t);
    XmlRowsAreRowsText(t, fmt, data);
    DocumentShape(t, HeaderCells(), CellsText(t, HeaderSpecs(Headers)), XmlRows(fmt, data));
  }

  lemma DocumentShape(t: Tags, header: string, cells: string, rows: string)
    requires IsXmlTags(t) && header == cells + "</Row>"
    ensures Prelude + header + rows + Epilogue == t.prelude + cells + t.rowClose + rows + t.epilogue
  {
  }

  lemma HeaderIsCellsText(t: Tags)
    requires IsXmlTags(t)
    ensures HeaderCells() == CellsText(t, HeaderSpecs(Headers)) + "</Row>"
  {
    var h := HeaderSpecs(Headers);
    var a, b, c, d := h[0], h[1], h[2], h[3];
    CellIsCellText(t, a);
    CellIsCellText(t, b);
    CellIsCellText(t, c);
    CellIsCellText(t, d);
    FourCellsText(t, a, b, c, d);
    assert h == [a, b, c, d];
  }

  lemma CellIsCellText(t: Tags, c: CellSpec)
    requires IsXmlTags(t)
    ensures Cell(c.kind, c.content) == CellText(t, c)
  {
  }

  lemma XmlRowIsRowText(t: Tags, fmt: real -> string, row: CombinedData)
    requires IsXmlTags(t)
    ensures XmlRow(fmt, row) == RowText(t, RowSpecs(fmt, row))
  {
    var a, b := CellSpec("String", EscapeXML(row.name)), CellSpec("String", ActiveCell(row.active));
    var c, d := CellSpec("Number", HoursCell(fmt, row.hours)), CellSpec("String", EscapeXML(CommentText(row.comment)));
    CellIsCellText(t, a);
    CellIsCellText(t, b);
    CellIsCellText(t, c);
    CellIsCellText(t, d);
    FourCellsText(t, a, b, c, d);
    assert RowSpecs(fmt, row) == [a, b, c, d];
    RowOfFour(t, CellText(t, a), CellText(t, b), CellText(t, c), CellText(t, d), CellsText(t, [a, b, c, d]));
  }

  lemma RowOfFour(t: Tags, a: string, b: string, c: string, d: string, cells: string)
    requires IsXmlTags(t) && cells == a + b + c + d
    ensures "<Row>" + a + b + c + d + "</Row>" == t.rowOpen + cells + t.rowClose
  {
  }

  lemma {:induction false} XmlRowsAreRowsText(t: Tags, fmt: real -> string, data: seq<CombinedData>)
    requires IsXmlTags(t)
    ensures XmlRows(fmt, data) == RowsText(t, SpecRows(fmt, data))
    decreases |data|
  {
    if |data| > 0 {
      var init := data[..|data| - 1];
      XmlRowsAreRowsText(t, fmt, init);
      XmlRowIsRowText(t, fmt, data[|data| - 1]);
      SpecRowsSnoc(fmt, data);
      RowsTextSnoc(t, SpecRows(fmt, init), RowSpecs(fmt, data[|data| - 1]));
    }
  }

  lemma SpecRowsSnoc(fmt: real -> string, data: seq<CombinedData>)
    requires |data| > 0
    ensures SpecRows(fmt, data) == SpecRows(fmt, data[..|data| - 1]) + [RowSpecs(fmt, data[|data| - 1])]
  {
  }
}
