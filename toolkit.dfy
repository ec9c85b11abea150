/**
  `Toolkit` of `alx/itrs/toolkit.py`: the table and headlines a Geneos
  toolkit sampler writes. Headlines are an insertion-ordered map, kept as
  the key order plus a map from key to value; headings and rows are
  lists with a counter each. Cell values are already strings (`str(v)`).
 */
module ItrsToolkit {
  import opened Text

  // ---------------------------------------------------------------------
  // Escaping commas in row cells

  /** What `add_row` does to each cell: every `,` becomes `\,`. */
  function Escape(cell: string): (r: string)
    ensures forall i :: 0 <= i < |r| && r[i] == ',' ==> i > 0 && r[i - 1] == '\\'
    decreases |cell|
  {
    if cell == [] then []
    else if cell[0] == ',' then "\\," + Escape(cell[1..])
    else [cell[0]] + Escape(cell[1..])
  }

  /** A rendered row: the escaped cells joined by `,`. */
  function RowLine(cells: seq<string>): string {
    Join(",", EscapeAll(cells))
  }

  function EscapeAll(cells: seq<string>): (r: seq<string>)
    ensures |r| == |cells| && forall i :: 0 <= i < |cells| ==> r[i] == Escape(cells[i])
  {
    seq(|cells|, i requires 0 <= i < |cells| => Escape(cells[i]))
  }

  /**
    How a reader of the output recovers the cells of a row line: a `,`
    not preceded by `\` separates cells, and `\,` stands for a comma.
   */
  function ReadRow(line: string): (cells: seq<string>)
    ensures |cells| >= 1
    decreases |line|
  {
    if line == [] then [""]
    else if |line| >= 2 && line[0] == '\\' && line[1] == ',' then
      var r := ReadRow(line[2..]);
      [[','] + r[0]] + r[1..]
    else if line[0] == ',' then [""] + ReadRow(line[1..])
    else
      var r := ReadRow(line[1..]);
      [[line[0]] + r[0]] + r[1..]
  }

  predicate EndsInBackslash(cell: string) {
    cell != [] && cell[|cell| - 1] == '\\'
  }

  lemma EscapeFirst(cell: string)
    requires cell != []
    ensures Escape(cell) != [] && Escape(cell)[0] == (if cell[0] == ',' then '\\' else cell[0])
  {
  }

  lemma ReadRowEscapedComma(t: string)
    ensures ReadRow("\\," + t) == [[','] + ReadRow(t)[0]] + ReadRow(t)[1..]
  {
    var line := "\\," + t;
    assert line[2..] == t;
  }

  lemma ReadRowPlain(c: char, t: string)
    requires c != ','
    requires !(c == '\\' && t != [] && t[0] == ',')
    ensures ReadRow([c] + t) == [[c] + ReadRow(t)[0]] + ReadRow(t)[1..]
  {
    var line := [c] + t;
    assert line[1..] == t;
  }

  /** An escaped cell never starts with a `,`, so what follows it does only when the cell is empty. */
  lemma EscapedNoLeadingComma(tail: string, rest: string)
    requires tail != [] || rest == [] || rest[0] != ','
    ensures var t := Escape(tail) + rest; t == [] || t[0] != ','
  {
    if tail != [] {
      EscapeFirst(tail);
    }
  }

  /** Gluing a character onto the first cell of a row read from the rest. */
  lemma GlueFirst(c: char, tail: string, r: seq<string>, rt: seq<string>)
    requires |r| >= 1 && rt == [tail + r[0]] + r[1..]
    ensures [[c] + rt[0]] + rt[1..] == [([c] + tail) + r[0]] + r[1..]
  {
    assert rt[0] == tail + r[0] && rt[1..] == r[1..];
    AppendAssoc([c], tail, r[0]);
  }

  /**
    An escaped cell followed by more text reads back as the cell glued to
    the first cell read from the rest, unless a trailing `\` of the cell
    meets a separating `,`.
   */
  lemma {:induction false} ReadEscapedCell(cell: string, rest: string)
    requires !(EndsInBackslash(cell) && rest != [] && rest[0] == ',')
    ensures var r := ReadRow(rest);
      ReadRow(Escape(cell) + rest) == [cell + r[0]] + r[1..]
    decreases |cell|
  {
    var r := ReadRow(rest);
    if cell == [] {
      assert Escape(cell) + rest == rest;
      assert cell + r[0] == r[0];
      assert [r[0]] + r[1..] == r;
    } else {
      var c, tail := cell[0], cell[1..];
      var t := Escape(tail) + rest;
      assert EndsInBackslash(tail) ==> EndsInBackslash(cell);
      ReadEscapedCell(tail, rest);
      if c == ',' {
        assert Escape(cell) == "\\," + Escape(tail);
        AppendAssoc("\\,", Escape(tail), rest);
        ReadRowEscapedComma(t);
      } else {
        assert Escape(cell) == [c] + Escape(tail);
        AppendAssoc([c], Escape(tail), rest);
        if c == '\\' {
          EscapedNoLeadingComma(tail, rest);
        }
        ReadRowPlain(c, t);
      }
      GlueFirst(c, tail, r, ReadRow(t));
      assert cell == [c] + tail;
    }
  }

  lemma RowLineCons(cells: seq<string>)
    requires |cells| >= 2
    ensures RowLine(cells) == Escape(cells[0]) + ("," + RowLine(cells[1..]))
  {
    assert EscapeAll(cells)[1..] == EscapeAll(cells[1..]);
    AppendAssoc(Escape(cells[0]), ",", RowLine(cells[1..]));
  }

  lemma ReadRowSeparator(rest: string)
    ensures ReadRow("," + rest) == [""] + ReadRow(rest)
  {
    assert ("," + rest)[1..] == rest;
  }

  lemma ReadRowLineSingle(c: string)
    requires !EndsInBackslash(c)
    ensures ReadRow(RowLine([c])) == [c]
  {
    assert RowLine([c]) == Escape(c) + [];
    ReadEscapedCell(c, []);
    assert c + "" == c;
  }

  /**
    Rows whose cells do not end in a backslash read back as the cells that
    were added: the escaping is undone and commas inside cells survive.
   */
  lemma {:induction false} ReadRowLine(cells: seq<string>)
    requires cells != []
    requires forall i :: 0 <= i < |cells| ==> !EndsInBackslash(cells[i])
    ensures ReadRow(RowLine(cells)) == cells
    decreases |cells|
  {
    var c := cells[0];
    assert !EndsInBackslash(c);
    if |cells| == 1 {
      ReadRowLineSingle(c);
      assert cells == [c];
    } else {
      var tail := cells[1..];
      assert forall i :: 0 <= i < |tail| ==> !EndsInBackslash(tail[i]) by {
        forall i | 0 <= i < |tail| ensures !EndsInBackslash(tail[i]) {
          assert tail[i] == cells[i + 1];
        }
      }
      var rest := RowLine(tail);
      RowLineCons(cells);
      ReadEscapedCell(c, "," + rest);
      ReadRowSeparator(rest);
      ReadRowLine(tail);
      var r := ReadRow("," + rest);
      assert r == [""] + tail;
      assert r[0] == "" && r[1..] == tail;
      assert c + "" == c;
      assert cells == [c] + tail;
    }
  }

  /**
    A backslash is not escaped, so a cell ending in `\` followed by another
    cell is written exactly like one cell holding a comma: the condition of
    `ReadRowLine` cannot be dropped.
   */
  lemma BackslashMakesRowsAmbiguous()
    ensures RowLine(["a\\", "b"]) == RowLine(["a,b"])
    ensures ["a\\", "b"] != ["a,b"]
  {
    assert Escape("b") == "b";
    assert Escape("a\\") == "a\\" by {
      assert Escape("\\") == "\\";
    }
    assert Escape("a,b") == "a\\,b" by {
      assert Escape(",b") == "\\,b";
    }
  }

  // ---------------------------------------------------------------------
  // The sampler

  /** The headline label `ok`, `warning` and `error` write. */
  const StatusLabel := "samplingStatus"

  /** The line `_display` writes for headline `key`. */
  function HeadlineLine(key: string, value: string): string {
    "<!>" + key + "," + value
  }

  /** Every piece stripped, in order. */
  function Stripped(pieces: seq<string>): (r: seq<string>)
    ensures |r| == |pieces| && forall i :: 0 <= i < |pieces| ==> r[i] == Strip(pieces[i])
  {
    seq(|pieces|, i requires 0 <= i < |pieces| => Strip(pieces[i]))
  }

  lemma StrippedSnoc(pieces: seq<string>, piece: string)
    ensures Stripped(pieces + [piece]) == Stripped(pieces) + [Strip(piece)]
  {
  }

  class Toolkit {
    /** Headline labels in insertion order. */
    var labels: seq<string>
    /** Headline values by key. */
    var values: map<string, string>
    var rows: seq<seq<string>>
    var numRows: nat
    var headings: seq<string>
    var numColumns: nat
    /** Where `_display` writes; empty for standard output. */
    var filename: string

    /** The counters match their lists, and the labels are exactly the map's keys, each once. */
    ghost predicate Valid()
      reads this
    {
      && numRows == |rows|
      && numColumns == |headings|
      && NoDuplicates(labels)
      && (forall l :: l in values <==> l in labels)
    }

    /**
      The lines `_display` writes: the headings joined by `,`, one
      `<!>key,value` line per headline in insertion order, one `,`-joined
      line per row.
     */
    ghost predicate Renders(lines: seq<string>)
      requires Valid()
      reads this
    {
      && |lines| == 1 + |labels| + |rows|
      && lines[0] == Join(",", headings)
      && (forall i :: 0 <= i < |labels| ==> lines[1 + i] == HeadlineLine(labels[i], values[labels[i]]))
      && (forall j :: 0 <= j < |rows| ==> lines[1 + |labels| + j] == Join(",", rows[j]))
    }

    constructor (filename: string)
      ensures Valid()
      ensures labels == [] && values == map[] && rows == [] && headings == []
      ensures numRows == 0 && numColumns == 0 && this.filename == filename
    {
      labels, values := [], map[];
      rows, numRows := [], 0;
      headings, numColumns := [], 0;
      this.filename := filename;
    }

    /** Sets a headline; a new key goes last, an existing one keeps its place. */
    method AddHeadline(key: string, value: string)
      requires Valid()
      modifies this
      ensures Valid()
      ensures values == old(values)[key := value]
      ensures labels == if key in old(values) then old(labels) else old(labels) + [key]
      ensures rows == old(rows) && headings == old(headings) && filename == old(filename)
    {
      if key !in values {
        labels := labels + [key];
      }
      values := values[key := value];
    }

    /** Appends the stripped heading; the comma escape in the source is discarded, so none happens. */
    method AddHeading(heading: string)
      requires Valid()
      modifies this
      ensures Valid()
      ensures headings == old(headings) + [Strip(heading)]
      ensures labels == old(labels) && values == old(values) && rows == old(rows) && filename == old(filename)
    {
      headings := headings + [Strip(heading)];
      numColumns := numColumns + 1;
    }

    /**
      One heading per piece of `text` split on `delimiter`. `ok` is false
      for the empty delimiter, for which `str.split` raises `ValueError`.
     */
    method AddHeadings(text: string, delimiter: string) returns (ok: bool)
      requires Valid()
      modifies this
      ensures Valid()
      ensures ok == (delimiter != [])
      ensures headings == if ok then old(headings) + Stripped(Split(text, delimiter)) else old(headings)
      ensures labels == old(labels) && values == old(values) && rows == old(rows) && filename == old(filename)
    {
      if delimiter == [] {
        return false;
      }
      AddHeadingList(Split(text, delimiter));
      return true;
    }

    /** `add_heading` for each piece, in order. */
    method AddHeadingList(pieces: seq<string>)
      requires Valid()
      modifies this
      ensures Valid()
      ensures headings == old(headings) + Stripped(pieces)
      ensures labels == old(labels) && values == old(values) && rows == old(rows) && filename == old(filename)
    {
      var i := 0;
      while i < |pieces|
        invariant 0 <= i <= |pieces|
        invariant Valid()
        invariant headings == old(headings) + Stripped(pieces[..i])
        invariant labels == old(labels) && values == old(values) && rows == old(rows) && filename == old(filename)
      {
        StrippedSnoc(pieces[..i], pieces[i]);
        assert pieces[..i + 1] == pieces[..i] + [pieces[i]];
        AddHeading(pieces[i]);
        i := i + 1;
      }
      assert pieces[..i] == pieces;
    }

    /**
      `add_row` given a list: every cell of the caller's list is escaped in
      place, and the list becomes the new last row.
     */
    method AddRowFromList(cells: array<string>)
      requires Valid()
      modifies this, cells
      ensures Valid()
      ensures cells[..] == EscapeAll(old(cells[..]))
      ensures rows == old(rows) + [cells[..]]
      ensures labels == old(labels) && values == old(values) && headings == old(headings)
      ensures filename == old(filename)
    {
      var i := 0;
      while i < cells.Length
        invariant 0 <= i <= cells.Length
        invariant forall j :: 0 <= j < i ==> cells[j] == Escape(old(cells[j]))
        invariant forall j :: i <= j < cells.Length ==> cells[j] == old(cells[j])
        invariant unchanged(this)
      {
        cells[i] := Escape(cells[i]);
        i := i + 1;
      }
      assert cells[..] == EscapeAll(old(cells[..]));
      rows := rows + [cells[..]];
      numRows := numRows + 1;
    }

    /**
      `add_row` given a string: it is split on the delimiter and the escaped
      pieces become the new last row. `ok` is false for the empty delimiter.
     */
    method AddRowFromText(text: string, delimiter: string) returns (ok: bool)
      requires Valid()
      modifies this
      ensures Valid()
      ensures ok == (delimiter != [])
      ensures rows == if ok then old(rows) + [EscapeAll(Split(text, delimiter))] else old(rows)
      ensures labels == old(labels) && values == old(values) && headings == old(headings)
      ensures filename == old(filename)
    {
      if delimiter == [] {
        return false;
      }
      var pieces := Split(text, delimiter);
      var escaped := [];
      var i := 0;
      while i < |pieces|
        invariant 0 <= i <= |pieces|
        invariant escaped == EscapeAll(pieces[..i])
      {
        assert pieces[..i + 1][..i] == pieces[..i];
        escaped := escaped + [Escape(pieces[i])];
        i := i + 1;
      }
      assert pieces[..i] == pieces;
      rows := rows + [escaped];
      numRows := numRows + 1;
      return true;
    }

    /**
      `_display`: the headings joined by `,`, then one `<!>key,value` line
      per headline in insertion order, then one `,`-joined line per row.
     */
    method Display() returns (lines: seq<string>)
      requires Valid()
      ensures Renders(lines)
    {
      lines := [Join(",", headings)];
      var i := 0;
      while i < |labels|
        invariant 0 <= i <= |labels|
        invariant |lines| == 1 + i && lines[0] == Join(",", headings)
        invariant forall k :: 0 <= k < i ==> lines[1 + k] == HeadlineLine(labels[k], values[labels[k]])
      {
        lines := lines + [HeadlineLine(labels[i], values[labels[i]])];
        i := i + 1;
      }
      var j := 0;
      while j < |rows|
        invariant 0 <= j <= |rows|
        invariant |lines| == 1 + |labels| + j && lines[0] == Join(",", headings)
        invariant forall k :: 0 <= k < |labels| ==> lines[1 + k] == HeadlineLine(labels[k], values[labels[k]])
        invariant forall k :: 0 <= k < j ==> lines[1 + |labels| + k] == Join(",", rows[k])
      {
        lines := lines + [Join(",", rows[j])];
        j := j + 1;
      }
    }

    /** Sets the status headline to `OK ` and the message, and renders. */
    method Ok(message: string) returns (lines: seq<string>)
      requires Valid()
      modifies this
      ensures Valid()
      ensures values == old(values)[StatusLabel := "OK " + message]
      ensures labels == if StatusLabel in old(values) then old(labels) else old(labels) + [StatusLabel]
      ensures rows == old(rows) && headings == old(headings)
      ensures Renders(lines)
    {
      AddHeadline(StatusLabel, "OK " + message);
      lines := Display();
    }

    /** Sets the status headline to `WARN ` and the message, and renders. */
    method Warning(message: string) returns (lines: seq<string>)
      requires Valid()
      modifies this
      ensures Valid()
      ensures values == old(values)[StatusLabel := "WARN " + message]
      ensures labels == if StatusLabel in old(values) then old(labels) else old(labels) + [StatusLabel]
      ensures rows == old(rows) && headings == old(headings)
      ensures Renders(lines)
    {
      AddHeadline(StatusLabel, "WARN " + message);
      lines := Display();
    }

    /** Sets the status headline to `FAIL ` and the message, renders, and exits with status 1. */
    method Error(message: string) returns (lines: seq<string>, exitStatus: int)
      requires Valid()
      modifies this
      ensures Valid()
      ensures values == old(values)[StatusLabel := "FAIL " + message]
      ensures labels == if StatusLabel in old(values) then old(labels) else old(labels) + [StatusLabel]
      ensures rows == old(rows) && headings == old(headings)
      ensures Renders(lines)
      ensures exitStatus == 1
    {
      AddHeadline(StatusLabel, "FAIL " + message);
      lines := Display();
      exitStatus := 1;
    }
  }
}
