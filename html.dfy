/**
  `ALXhtml` of `alx/html.py`: an append-only HTML builder. Four string
  fields hold the document's parts; every appender adds markup to the end
  of `body`, and `GetHtml` glues the parts together.
 */
module Html {
  import opened Text

  const EndHtml := "</html>\n"
  const EndHead := "</head>\n"
  const EndBody := "</body>\n"
  const StartHtml := "<html>\n"
  const StartBody := "<body>\n"

  /** The head a fresh builder has; an empty title stands for `None`. */
  function Head(title: string): string {
    "<head>\n" + (if title == "" then "" else "<title>" + title + "</title>\n")
  }

  /** The `<style>` block the constructor wraps the library's css in. */
  function LibraryStyle(libCss: string): string {
    "<style>\n" + libCss + "</style>\n"
  }

  /** The `<style>` block `set_css` builds; unlike the library's, it closes on a new line. */
  function CustomStyle(c: string): string {
    "<style>\n" + c + "\n</style>\n"
  }

  /** `<hN>text</hN>` and a newline, `N` rendered by `%d`. */
  function Heading(n: int, text: string): string {
    "<h" + IntToDecimal(n) + ">" + text + "</h" + IntToDecimal(n) + ">\n"
  }

  /** One cell of a row, as `add_row` writes it: `    <t{tag}>v</t{tag}>`. */
  function Cell(tag: string, value: string): string {
    "    <t" + tag + ">" + value + "</t" + tag + ">\n"
  }

  /** The cells of a row, in order. */
  function Cells(tag: string, values: seq<string>): string
    decreases |values|
  {
    if values == [] then "" else Cells(tag, values[..|values| - 1]) + Cell(tag, values[|values| - 1])
  }

  /** A whole row: `  <tr>`, the cells, `  </tr>`. */
  function Row(tag: string, values: seq<string>): string {
    "  <tr>\n" + Cells(tag, values) + "  </tr>\n"
  }

  /** What `add_cell` writes: a data cell, with a `style` attribute only when a style is given. */
  function StyledCell(value: string, style: string): string {
    if style == "" then "    <td>" + value + "</td>\n"
    else "    <td style='" + style + "'>" + value + "</td>\n"
  }

  /** The whole document `get_html` assembles from the four parts. */
  function Document(html: string, head: string, css: string, body: string): string {
    html + head + css + EndHead + body + EndBody + EndHtml
  }

  /** The cells of a concatenation are the concatenation of the cells. */
  lemma {:induction false} CellsConcat(tag: string, a: seq<string>, b: seq<string>)
    ensures Cells(tag, a + b) == Cells(tag, a) + Cells(tag, b)
    decreases |b|
  {
    if b == [] {
      assert a + b == a;
    } else {
      var init, last := b[..|b| - 1], b[|b| - 1];
      assert (a + b)[..|a + b| - 1] == a + init;
      assert (a + b)[|a + b| - 1] == last;
      CellsConcat(tag, a, init);
      AppendAssoc(Cells(tag, a), Cells(tag, init), Cell(tag, last));
    }
  }

  /** Value `i` contributes its own cell, between the cells of the values before and after it. */
  lemma {:induction false} CellsOneEach(tag: string, values: seq<string>, i: nat)
    requires i < |values|
    ensures Cells(tag, values) == Cells(tag, values[..i]) + Cell(tag, values[i]) + Cells(tag, values[i + 1..])
  {
    assert values == values[..i] + [values[i]] + values[i + 1..];
    CellsConcat(tag, values[..i] + [values[i]], values[i + 1..]);
    CellsConcat(tag, values[..i], [values[i]]);
    assert Cells(tag, [values[i]]) == Cell(tag, values[i]) by {
      assert [values[i]][..0] == [];
    }
  }

  /** A cell `add_cell` writes without a style is the cell `add_row` writes with tag `d`. */
  lemma UnstyledCellIsDataCell(value: string)
    ensures StyledCell(value, "") == Cell("d", value)
    ensures StyledCell(value, "") == Cells("d", [value])
  {
    assert [value][..0] == [];
  }

  class HtmlBuilder {
    var html: string
    var head: string
    var css: string
    var body: string

    /** The parts every method but `SetCss` leaves alone. */
    function Frame(): (string, string, string)
      reads this
    {
      (html, head, css)
    }

    /** The constructor, with the library css given as a parameter. */
    constructor (title: string, libCss: string)
      ensures html == StartHtml && head == Head(title) && css == LibraryStyle(libCss) && body == StartBody
    {
      css := LibraryStyle(libCss);
      head := Head(title);
      html := StartHtml;
      body := StartBody;
    }

    /** Replaces the css; nothing else changes. */
    method SetCss(c: string)
      modifies this
      ensures css == CustomStyle(c)
      ensures html == old(html) && head == old(head) && body == old(body)
    {
      css := CustomStyle(c);
    }

    /** Appends `more` to the body; every appender below is this with fixed markup. */
    method Append(more: string)
      modifies this
      ensures body == old(body) + more && Frame() == old(Frame())
    {
      body := body + more;
    }

    method AddHeading(n: int, text: string)
      modifies this
      ensures body == old(body) + Heading(n, text) && Frame() == old(Frame())
    {
      Append(Heading(n, text));
    }

    method AddH1(text: string)
      modifies this
      ensures body == old(body) + "<h1>" + text + "</h1>\n" && Frame() == old(Frame())
    {
      assert IntToDecimal(1) == "1";
      AddHeading(1, text);
    }

    method AddH2(text: string)
      modifies this
      ensures body == old(body) + "<h2>" + text + "</h2>\n" && Frame() == old(Frame())
    {
      assert IntToDecimal(2) == "2";
      AddHeading(2, text);
    }

    method AddH3(text: string)
      modifies this
      ensures body == old(body) + "<h3>" + text + "</h3>\n" && Frame() == old(Frame())
    {
      assert IntToDecimal(3) == "3";
      AddHeading(3, text);
    }

    method AddH4(text: string)
      modifies this
      ensures body == old(body) + "<h4>" + text + "</h4>\n" && Frame() == old(Frame())
    {
      assert IntToDecimal(4) == "4";
      AddHeading(4, text);
    }

    method AddH5(text: string)
      modifies this
      ensures body == old(body) + "<h5>" + text + "</h5>\n" && Frame() == old(Frame())
    {
      assert IntToDecimal(5) == "5";
      AddHeading(5, text);
    }

    /** Opens a paragraph; the source writes no closing tag. */
    method AddParagraph(p: string)
      modifies this
      ensures body == old(body) + "<p>\n" + p && Frame() == old(Frame())
    {
      Append("<p>\n" + p);
    }

    method AddBoldText(text: string)
      modifies this
      ensures body == old(body) + "<b>" + text + "</b>" && Frame() == old(Frame())
    {
      Append("<b>" + text + "</b>");
    }

    method AddItalicText(text: string)
      modifies this
      ensures body == old(body) + "<i>" + text + "</i>" && Frame() == old(Frame())
    {
      Append("<i>" + text + "</i>");
    }

    method AddBoldItalicText(text: string)
      modifies this
      ensures body == old(body) + "<b><i>" + text + "</i></b>" && Frame() == old(Frame())
    {
      Append("<b><i>" + text + "</i></b>");
    }

    method AddUl()
      modifies this
      ensures body == old(body) + "<ul>\n" && Frame() == old(Frame())
    {
      Append("<ul>\n");
    }

    method AddOl()
      modifies this
      ensures body == old(body) + "<ol>\n" && Frame() == old(Frame())
    {
      Append("<ol>\n");
    }

    method AddItem(item: string)
      modifies this
      ensures body == old(body) + "  <li>" + item + "</li>\n" && Frame() == old(Frame())
    {
      Append("  <li>" + item + "</li>\n");
    }

    method EndOl()
      modifies this
      ensures body == old(body) + "</ol>\n" && Frame() == old(Frame())
    {
      Append("</ol>\n");
    }

    method EndUl()
      modifies this
      ensures body == old(body) + "</ul>\n" && Frame() == old(Frame())
    {
      Append("</ul>\n");
    }

    method AddTable()
      modifies this
      ensures body == old(body) + "<table>\n" && Frame() == old(Frame())
    {
      Append("<table>\n");
    }

    method StartRow()
      modifies this
      ensures body == old(body) + "  <tr>\n" && Frame() == old(Frame())
    {
      Append("  <tr>\n");
    }

    /** One data cell; an empty style stands for no style. */
    method AddCell(value: string, style: string)
      modifies this
      ensures body == old(body) + StyledCell(value, style) && Frame() == old(Frame())
    {
      if style == "" {
        Append("    <td>" + value + "</td>\n");
      } else {
        var open, close := "    <td style='" + style + "'>", value + "</td>\n";
        Append(open);
        Append(close);
        assert open + close == StyledCell(value, style);
      }
    }

    method EndRow()
      modifies this
      ensures body == old(body) + "  </tr>\n" && Frame() == old(Frame())
    {
      Append("  </tr>\n");
    }

    /** A whole row, one cell per value in order. */
    method AddRow(values: seq<string>, tag: string)
      modifies this
      ensures body == old(body) + Row(tag, values) && Frame() == old(Frame())
    {
      Append("  <tr>\n");
      var i := 0;
      while i < |values|
        invariant 0 <= i <= |values|
        invariant Frame() == old(Frame())
        invariant body == old(body) + "  <tr>\n" + Cells(tag, values[..i])
      {
        assert values[..i + 1][..i] == values[..i];
        Append(Cell(tag, values[i]));
        i := i + 1;
      }
      assert values[..i] == values;
      Append("  </tr>\n");
    }

    /** A heading row: `AddRow` with tag `h`. */
    method AddHeadings(values: seq<string>)
      modifies this
      ensures body == old(body) + Row("h", values) && Frame() == old(Frame())
    {
      AddRow(values, "h");
    }

    method EndTable()
      modifies this
      ensures body == old(body) + "</table>\n" && Frame() == old(Frame())
    {
      Append("</table>\n");
    }

    /** Raw html, followed by a newline. */
    method AddHtml(raw: string)
      modifies this
      ensures body == old(body) + raw + "\n" && Frame() == old(Frame())
    {
      Append(raw + "\n");
    }

    method AddUrl(target: string, text: string)
      modifies this
      ensures body == old(body) + "<a href='" + target + "'>" + text + "</a>\n" && Frame() == old(Frame())
    {
      Append("<a href='" + target + "'>" + text + "</a>\n");
    }

    /** The assembled document: html tag, head and css first, the body last before the closing tags. */
    function GetHtml(): (doc: string)
      reads this
      ensures StartsWith(doc, html + head + css + EndHead)
      ensures EndsWith(doc, body + EndBody + EndHtml)
      ensures |doc| == |html| + |head| + |css| + |body| + |EndHead + EndBody + EndHtml|
    {
      var prefix := html + head + css + EndHead;
      var suffix := body + EndBody + EndHtml;
      var doc := Document(html, head, css, body);
      assert doc == prefix + suffix;
      assert doc[..|prefix|] == prefix;
      assert doc[|prefix|..] == suffix;
      doc
    }
  }
}
