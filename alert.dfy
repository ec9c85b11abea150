/**
  `HtmlAlert` of `alx/itrs/alert.py`: the severity colour table and the
  fixed HTML table an alert mail carries. The Geneos environment record
  and the formatted date are inputs; the table is described as a list of
  rows (`AlertRows`), and `Create` drives an `HtmlBuilder` through the same
  calls as the source and returns its body.
 */
module Alert {
  import opened Wrappers
  import opened Text
  import opened Html

  /** The standard ITRS colours by severity. */
  const Colours: map<string, string> :=
    map["critical" := "#FF7474", "warning" := "#FFCF80", "ok" := "#BCF0BC"]

  /** The cell style for a severity; `None` stands for the `KeyError` of an unknown one. */
  function SeverityStyle(severity: string): (style: Option<string>)
    ensures style.Some? <==> severity == "critical" || severity == "warning" || severity == "ok"
  {
    if severity in Colours then Some("background-color: " + Colours[severity] + ";") else None
  }

  /** The three styles, written out. */
  lemma SeverityStyles()
    ensures SeverityStyle("critical") == Some("background-color: #FF7474;")
    ensures SeverityStyle("warning") == Some("background-color: #FFCF80;")
    ensures SeverityStyle("ok") == Some("background-color: #BCF0BC;")
  {
    assert Colours["critical"] == "#FF7474";
    assert "background-color: " + "#FF7474" + ";" == "background-color: #FF7474;";
    assert Colours["warning"] == "#FFCF80";
    assert "background-color: " + "#FFCF80" + ";" == "background-color: #FFCF80;";
    assert Colours["ok"] == "#BCF0BC";
    assert "background-color: " + "#BCF0BC" + ";" == "background-color: #BCF0BC;";
  }

  // ---------------------------------------------------------------------
  // str.title() over ASCII

  predicate IsLetter(c: char) {
    'a' <= c <= 'z' || 'A' <= c <= 'Z'
  }

  function ToUpper(c: char): char {
    if 'a' <= c <= 'z' then (c as int - 32) as char else c
  }

  /** Letters after a letter are lowered; the first letter of each run is raised. */
  function TitleFrom(s: string, afterLetter: bool): (r: string)
    ensures |r| == |s|
    decreases |s|
  {
    if s == [] then []
    else
      var c := s[0];
      var t := if !IsLetter(c) then c else if afterLetter then ToLower(c) else ToUpper(c);
      [t] + TitleFrom(s[1..], IsLetter(c))
  }

  /** Python's `s.title()` on ASCII text. */
  function Title(s: string): (r: string)
    ensures |r| == |s|
  {
    TitleFrom(s, false)
  }

  lemma {:induction false} TitleOfLowerWord(w: string)
    requires forall i :: 0 <= i < |w| ==> 'a' <= w[i] <= 'z'
    ensures TitleFrom(w, true) == w
    decreases |w|
  {
    if w != [] {
      TitleOfLowerWord(w[1..]);
      assert w == [w[0]] + w[1..];
    }
  }

  /** A lower-case word is title-cased by raising its first letter: `critical` shows as `Critical`. */
  lemma TitleOfSeverity(w: string)
    requires w != [] && forall i :: 0 <= i < |w| ==> 'a' <= w[i] <= 'z'
    ensures Title(w) == [ToUpper(w[0])] + w[1..]
    ensures 'A' <= Title(w)[0] <= 'Z'
  {
    TitleOfLowerWord(w[1..]);
  }

  // ---------------------------------------------------------------------
  // The alert and its table

  /** The fields of the Geneos environment the table shows. */
  datatype AlertEnv = AlertEnv(
    severity: string, gateway: string, application: string, location: string, host: string,
    managedEntity: string, sampler: string, dataview: string,
    rowname: string, column: string, value: string,
    dataviewColumns: seq<(string, string)>)

  datatype HtmlAlert = HtmlAlert(env: AlertEnv, style: string)

  /** `HtmlAlert(environment)`; `None` when the severity has no colour. */
  function NewAlert(env: AlertEnv): (a: Option<HtmlAlert>)
    ensures a.Some? <==> env.severity in Colours
    ensures a.Some? ==> a.value.env == env && a.value.style == "background-color: " + Colours[env.severity] + ";"
  {
    match SeverityStyle(env.severity)
    case None => None
    case Some(style) => Some(HtmlAlert(env, style))
  }

  /** One row of the table: a heading row, a plain row, or a label beside a styled value. */
  datatype TableRow =
    | HeadingRow(cells: seq<string>)
    | PlainRow(cells: seq<string>)
    | StyledRow(name: string, shown: string, style: string)

  /** A label cell beside a styled cell, as the severity and value rows are written. */
  function StyledRowText(name: string, shown: string, style: string): string {
    "  <tr>\n" + StyledCell(name, "") + StyledCell(shown, style) + "  </tr>\n"
  }

  function RenderRow(row: TableRow): string {
    match row
    case HeadingRow(cells) => Row("h", cells)
    case PlainRow(cells) => Row("d", cells)
    case StyledRow(name, shown, style) => StyledRowText(name, shown, style)
  }

  /** The concatenation of the parts, in order. */
  function Flatten(parts: seq<string>): string
    decreases |parts|
  {
    if parts == [] then "" else Flatten(parts[..|parts| - 1]) + parts[|parts| - 1]
  }

  lemma {:induction false} FlattenConcat(a: seq<string>, b: seq<string>)
    ensures Flatten(a + b) == Flatten(a) + Flatten(b)
    decreases |b|
  {
    if b == [] {
      assert a + b == a;
    } else {
      assert (a + b)[..|a + b| - 1] == a + b[..|b| - 1];
      FlattenConcat(a, b[..|b| - 1]);
    }
  }

  function RowTexts(rows: seq<TableRow>): (texts: seq<string>)
    ensures |texts| == |rows| && forall i :: 0 <= i < |rows| ==> texts[i] == RenderRow(rows[i])
  {
    seq(|rows|, i requires 0 <= i < |rows| => RenderRow(rows[i]))
  }

  function Render(rows: seq<TableRow>): string {
    Flatten(RowTexts(rows))
  }

  lemma RenderConcat(a: seq<TableRow>, b: seq<TableRow>)
    ensures Render(a + b) == Render(a) + Render(b)
  {
    assert RowTexts(a + b) == RowTexts(a) + RowTexts(b);
    FlattenConcat(RowTexts(a), RowTexts(b));
  }

  lemma RenderSnoc(rows: seq<TableRow>, row: TableRow)
    ensures Render(rows + [row]) == Render(rows) + RenderRow(row)
  {
    RenderConcat(rows, [row]);
    assert RowTexts([row]) == [RenderRow(row)];
    assert Flatten([RenderRow(row)]) == RenderRow(row) by {
      assert [RenderRow(row)][..0] == [];
    }
  }

  lemma RenderSingle(row: TableRow)
    ensures Render([row]) == RenderRow(row)
  {
    var text := RenderRow(row);
    assert RowTexts([row]) == [text];
    assert [text][..0] == [];
    assert Flatten([text]) == Flatten([]) + text;
  }

  lemma RenderCons(row: TableRow, rows: seq<TableRow>)
    ensures Render([row] + rows) == RenderRow(row) + Render(rows)
  {
    RenderConcat([row], rows);
    RenderSingle(row);
  }

  /** The dataview columns with a non-empty value, as plain rows, in order. */
  function ColumnRows(columns: seq<(string, string)>): seq<TableRow>
    decreases |columns|
  {
    if columns == [] then []
    else
      var last := columns[|columns| - 1];
      ColumnRows(columns[..|columns| - 1]) + (if last.1 != "" then [PlainRow([last.0, last.1])] else [])
  }

  const FixedLabels := ["Gateway", "Application", "Location", "Host", "Date", "Managed Entity", "Sampler", "Dataview"]

  /** The rows every alert has, the formatted date given. */
  function FixedRows(a: HtmlAlert, date: string): seq<TableRow> {
    var e := a.env;
    [ HeadingRow(["Variable", "Value"]),
      StyledRow("Severity", Title(e.severity), a.style),
      PlainRow(["Gateway", e.gateway]),
      PlainRow(["Application", e.application]),
      PlainRow(["Location", e.location]),
      PlainRow(["Host", e.host]),
      PlainRow(["Date", date]),
      PlainRow(["Managed Entity", e.managedEntity]),
      PlainRow(["Sampler", e.sampler]),
      PlainRow(["Dataview", e.dataview]),
      StyledRow("Value", e.rowname + " " + e.column + " is " + e.value, a.style) ]
  }

  /** The `Dataview Columns` heading and the column rows, or nothing when there are no columns. */
  function ColumnSection(columns: seq<(string, string)>): seq<TableRow> {
    if |columns| > 0 then [HeadingRow(["Dataview Columns", ""])] + ColumnRows(columns) else []
  }

  /** The rows of the whole table. */
  function AlertRows(a: HtmlAlert, date: string): seq<TableRow> {
    FixedRows(a, date) + ColumnSection(a.env.dataviewColumns)
  }

  // ---------------------------------------------------------------------
  // Properties of the table

  /** Column rows are plain rows of a column and its non-empty value, and every such column has one. */
  lemma {:induction false} ColumnRowsAreNonEmptyColumns(columns: seq<(string, string)>)
    ensures forall r :: r in ColumnRows(columns) ==>
      r.PlainRow? && |r.cells| == 2 && (r.cells[0], r.cells[1]) in columns && r.cells[1] != ""
    ensures forall c, v :: (c, v) in columns && v != "" ==> PlainRow([c, v]) in ColumnRows(columns)
    decreases |columns|
  {
    if columns != [] {
      var init := columns[..|columns| - 1];
      ColumnRowsAreNonEmptyColumns(init);
      assert columns == init + [columns[|columns| - 1]];
    }
  }

  lemma FixedRowsStyled(a: HtmlAlert, date: string)
    ensures var fixed := FixedRows(a, date);
      |fixed| == 11 && forall i :: 0 <= i < 11 ==> (fixed[i].StyledRow? <==> i == 1 || i == 10)
  {
  }

  lemma ColumnSectionUnstyled(columns: seq<(string, string)>)
    ensures forall r :: r in ColumnSection(columns) ==> !r.StyledRow?
  {
    ColumnRowsAreNonEmptyColumns(columns);
  }

  /** Only the severity cell and the value cell carry the style: they are the only styled rows. */
  lemma StyledRowsAreSeverityAndValue(a: HtmlAlert, date: string)
    ensures var rows := AlertRows(a, date);
      forall i :: 0 <= i < |rows| ==> (rows[i].StyledRow? <==> i == 1 || i == 10)
  {
    var rows := AlertRows(a, date);
    var fixed, section := FixedRows(a, date), ColumnSection(a.env.dataviewColumns);
    FixedRowsStyled(a, date);
    ColumnSectionUnstyled(a.env.dataviewColumns);
    assert rows == fixed + section;
    forall i | 0 <= i < |rows| ensures rows[i].StyledRow? <==> i == 1 || i == 10 {
      if i < 11 {
        assert rows[i] == fixed[i];
      } else {
        assert rows[i] == section[i - 11];
        assert section[i - 11] in section;
      }
    }
  }

  /** The eight fixed rows follow the severity row, in their fixed order. */
  lemma FixedRowsInOrder(a: HtmlAlert, date: string)
    ensures var rows := AlertRows(a, date);
      forall i :: 0 <= i < |FixedLabels| ==> rows[2 + i].PlainRow? && rows[2 + i].cells[0] == FixedLabels[i]
    ensures AlertRows(a, date)[6] == PlainRow(["Date", date])
  {
  }

  /** The `Dataview Columns` heading row is there exactly when the alert has dataview columns. */
  lemma ColumnsHeadingIffColumns(a: HtmlAlert, date: string)
    ensures HeadingRow(["Dataview Columns", ""]) in AlertRows(a, date) <==> |a.env.dataviewColumns| > 0
  {
    var rows := AlertRows(a, date);
    ColumnRowsAreNonEmptyColumns(a.env.dataviewColumns);
    if |a.env.dataviewColumns| > 0 {
      assert rows[11] == HeadingRow(["Dataview Columns", ""]);
    } else {
      assert rows == FixedRows(a, date);
    }
  }

  /** The rows after the fixed part are the heading and the non-empty columns, or nothing. */
  lemma ColumnRowsFollowFixedRows(a: HtmlAlert, date: string)
    ensures AlertRows(a, date)[..11] == FixedRows(a, date)
    ensures |a.env.dataviewColumns| > 0 ==>
      AlertRows(a, date)[12..] == ColumnRows(a.env.dataviewColumns)
    ensures |a.env.dataviewColumns| == 0 ==> |AlertRows(a, date)| == 11
  {
  }

  /** The rendered table opens with the `Variable`/`Value` heading row. */
  lemma FirstRowOpensTable(a: HtmlAlert, date: string)
    ensures StartsWith(Render(AlertRows(a, date)), Row("h", ["Variable", "Value"]))
  {
    var rows := AlertRows(a, date);
    assert rows == [rows[0]] + rows[1..];
    RenderConcat([rows[0]], rows[1..]);
    RenderSnoc([], rows[0]);
    assert [] + [rows[0]] == [rows[0]];
    assert Render([]) == "";
    var first := Row("h", ["Variable", "Value"]);
    assert Render([rows[0]]) == first;
    assert Render(rows)[..|first|] == first;
  }

  /** The severity and value rows: a plain label cell beside a styled cell. */
  method WriteStyledRow(html: HtmlBuilder, name: string, shown: string, style: string)
    modifies html
    ensures html.body == old(html.body) + StyledRowText(name, shown, style)
    ensures html.Frame() == old(html.Frame())
  {
    ghost var start := html.body;
    ghost var nameCell, styled := StyledCell(name, ""), StyledCell(shown, style);
    html.StartRow();
    ghost var afterOpen := html.body;
    html.AddCell(name, "");
    assert html.body == afterOpen + nameCell;
    ghost var labelled := html.body;
    html.AddCell(shown, style);
    assert html.body == labelled + styled;
    html.EndRow();
    assert html.body == start + "  <tr>\n" + nameCell + styled + "  </tr>\n";
  }

  /** Writes one table row through the builder's appenders, as `create` does for each row. */
  method WriteRow(html: HtmlBuilder, row: TableRow)
    modifies html
    ensures html.body == old(html.body) + RenderRow(row)
    ensures html.Frame() == old(html.Frame())
  {
    match row {
      case HeadingRow(cells) =>
        html.AddHeadings(cells);
      case PlainRow(cells) =>
        html.AddRow(cells, "d");
      case StyledRow(name, shown, style) =>
        WriteStyledRow(html, name, shown, style);
    }
  }

  /**
    Writes the rows in order. `create` spells out the eleven fixed rows in
    seventeen builder calls; here they are the list `FixedRows`.
   */
  method WriteRows(html: HtmlBuilder, rows: seq<TableRow>)
    modifies html
    ensures html.body == old(html.body) + Render(rows)
    ensures html.Frame() == old(html.Frame())
  {
    ghost var prefix := html.body;
    ghost var done: seq<TableRow> := [];
    assert html.body == prefix + Render(done);
    var i := 0;
    while i < |rows|
      invariant 0 <= i <= |rows|
      invariant html.Frame() == old(html.Frame())
      invariant html.body == prefix + Render(done)
      invariant done == rows[..i]
    {
      done := WriteNext(html, rows[i], prefix, done);
      assert rows[..i + 1] == done;
      i := i + 1;
    }
    assert rows[..i] == rows;
  }

  /** `WriteRow`, with ghost parameters that track the rows written so far. */
  method WriteNext(html: HtmlBuilder, row: TableRow, ghost prefix: string, ghost done: seq<TableRow>)
    returns (ghost done': seq<TableRow>)
    requires html.body == prefix + Render(done)
    modifies html
    ensures html.body == prefix + Render(done') && done' == done + [row]
    ensures html.Frame() == old(html.Frame())
  {
    ghost var written, text := Render(done), RenderRow(row);
    WriteRow(html, row);
    assert html.body == prefix + written + text;
    RenderSnoc(done, row);
    AppendAssoc(prefix, written, text);
    done' := done + [row];
  }

  /** Each dataview column with a non-empty value as a plain row, in order. */
  method WriteColumns(html: HtmlBuilder, columns: seq<(string, string)>)
    modifies html
    ensures html.body == old(html.body) + Render(ColumnRows(columns))
    ensures html.Frame() == old(html.Frame())
  {
    ghost var prefix := html.body;
    ghost var done: seq<TableRow> := [];
    assert html.body == prefix + Render(done);
    var i := 0;
    while i < |columns|
      invariant 0 <= i <= |columns|
      invariant html.Frame() == old(html.Frame())
      invariant html.body == prefix + Render(done)
      invariant done == ColumnRows(columns[..i])
    {
      assert columns[..i + 1][..i] == columns[..i];
      var (c, v) := columns[i];
      if v != "" {
        done := WriteNext(html, PlainRow([c, v]), prefix, done);
      }
      i := i + 1;
    }
    assert columns[..i] == columns;
  }

  /** The `Dataview Columns` heading and one row per column with a value, when there are columns. */
  method WriteColumnRows(html: HtmlBuilder, columns: seq<(string, string)>)
    modifies html
    ensures html.body == old(html.body) + Render(ColumnSection(columns))
    ensures html.Frame() == old(html.Frame())
  {
    if |columns| > 0 {
      var heading := HeadingRow(["Dataview Columns", ""]);
      ghost var start, rows := html.body, ColumnRows(columns);
      ghost var headingText, rowsText := RenderRow(heading), Render(rows);
      WriteRow(html, heading);
      assert html.body == start + headingText;
      ghost var afterHeading := html.body;
      WriteColumns(html, columns);
      assert html.body == afterHeading + rowsText;
      RenderCons(heading, rows);
      assert html.body == start + (headingText + rowsText);
    } else {
      assert Render([]) == "";
    }
  }

  /** The rendered table: the fixed rows' text, then the column section's, opening with the heading row. */
  lemma AlertTableText(a: HtmlAlert, date: string)
    ensures Render(AlertRows(a, date)) == Render(FixedRows(a, date)) + Render(ColumnSection(a.env.dataviewColumns))
    ensures StartsWith(Render(AlertRows(a, date)), Row("h", ["Variable", "Value"]))
  {
    RenderConcat(FixedRows(a, date), ColumnSection(a.env.dataviewColumns));
    FirstRowOpensTable(a, date);
  }

  /** The body `create` leaves: the table, wrapped in its tags, after the opening body tag. */
  lemma BodyLayout(table: string)
    requires StartsWith(table, Row("h", ["Variable", "Value"]))
    ensures var body := StartBody + "<table>\n" + table + "</table>\n";
      StartsWith(body, "<body>\n<table>\n" + Row("h", ["Variable", "Value"])) && EndsWith(body, "</table>\n")
  {
    var first := Row("h", ["Variable", "Value"]);
    var body := StartBody + "<table>\n" + table + "</table>\n";
    var open := "<body>\n<table>\n";
    assert StartBody + "<table>\n" == open;
    assert table == first + table[|first|..];
    assert body == (open + first) + (table[|first|..] + "</table>\n");
    assert body == (open + table) + "</table>\n";
  }

  /** Regrouping a concatenation around a middle part that is itself a concatenation. */
  lemma Regroup(open: string, first: string, second: string, middle: string, close: string)
    requires middle == first + second
    ensures open + first + second + close == open + middle + close
  {
  }

  /**
    `create`: the body of a fresh builder after the table is written. The
    library css is a parameter of the builder and plays no part in the body.
   */
  method Create(a: HtmlAlert, date: string, libCss: string) returns (body: string)
    ensures body == StartBody + "<table>\n" + Render(AlertRows(a, date)) + "</table>\n"
    ensures StartsWith(body, "<body>\n<table>\n" + Row("h", ["Variable", "Value"]))
    ensures EndsWith(body, "</table>\n")
  {
    var html := new HtmlBuilder("", libCss);
    html.AddTable();
    ghost var prefix := html.body;
    ghost var fixedText := Render(FixedRows(a, date));
    ghost var sectionText := Render(ColumnSection(a.env.dataviewColumns));
    var fixed := FixedRows(a, date);
    WriteRows(html, fixed);
    assert html.body == prefix + fixedText;
    ghost var afterFixed := html.body;
    WriteColumnRows(html, a.env.dataviewColumns);
    assert html.body == afterFixed + sectionText;
    html.EndTable();
    body := html.body;
    ghost var tableText := Render(AlertRows(a, date));
    AlertTableText(a, date);
    Regroup(prefix, fixedText, sectionText, tableText, "</table>\n");
    BodyLayout(tableText);
  }
}
