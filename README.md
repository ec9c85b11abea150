# alx-common core, modelled in Dafny

This project models the deterministic core of the `alx` helper library:

- `alx/app.py`:
  - how the `--env` flag selects the `dev`/`test`/`prod` environment;
  - the `is_dev`/`is_test`/`is_prod` predicates;
  - the directory layout `Paths` derives from the installation root;
  - `parse_config`, which binds each key of a configuration section onto an object. The type is chosen by a fixed cascade: `$data` substitution, the four boolean literals, `int()`, `float()`, JSON for values opening with `[` or `{`, and otherwise the raw string.
- `alx/html.py`: `ALXhtml`, an append-only HTML builder. It is the class `Html.HtmlBuilder`, with the fields `html`, `head`, `css` and `body`. Every appender extends `body`, and `GetHtml` assembles the document.
- `alx/mail.py`: `ALXmail`, as the class `Mail.Mailer`. It covers:
  - the mail-type check;
  - routing addresses to the to/cc/bcc lists;
  - splitting recipient strings on runs of `,`, `;` and whitespace;
  - the plain-text body rules;
  - de-duplication at send time;
  - the bounded retry loop of `send`.
- `alx/itrs/toolkit.py`: `Toolkit`, as the class `ItrsToolkit.Toolkit`. It holds:
  - an insertion-ordered headline map;
  - headings and rows, each with its counter;
  - comma escaping of row cells;
  - the `ok`/`warning`/`error` status headline;
  - the line-by-line output of `_display`.
- `alx/itrs/alert.py`: the severity colour table, and `HtmlAlert.create`. `create` writes a fixed table through an `HtmlBuilder` and returns its body.
- `alx/misc.py`: `normalize` and `spaces_to_underscores`.

The Python string operations these rely on are stated over `seq<char>` in module `Text`:

- `strip`, `lower`, `split`, `join` and `replace`;
- `in` and `startswith`;
- the literal syntax `int()` and `float()` accept.

Module layout:

| file | module | contents |
|---|---|---|
| `wrappers.dfy` | `Wrappers` | `Option` |
| `text.dfy` | `Text` | Python string primitives and their lemmas |
| `misc.dfy` | `Misc` | `normalize`, `spaces_to_underscores` |
| `app.dfy` | `App` | environment, `Paths`, the binding cascade, `ParseConfig` |
| `html.dfy` | `Html` | `HtmlBuilder` |
| `mail.dfy` | `Mail` | address splitting, `Dedup`, `Deliver`, `Mailer` |
| `toolkit.dfy` | `ItrsToolkit` | row escaping and reading back, `Toolkit` |
| `alert.dfy` | `Alert` | colours, title case, the alert table, `Create` |

Conventions:

- An empty string stands for Python's `None` or `""` wherever the source only tests truthiness: the html title, the cell style, the ini file name and the toolkit file name.
- An exception the source raises is a result value: `Option.None`, `Step.Fail`, `Bound.failure`, `ok == false`, or the `Raised` record `Deliver` returns.

## Model

| member | source | states |
|---|---|---|
| App.Environment | alx/app.py:169-179 | the environment is always `dev`, `test` or `prod`; `test` exactly for `test`/`uat`/`tst`, `prod` exactly for `prd`/`prod`/`production`, every other flag `dev` |
| App.ExactlyOneEnvironment | alx/app.py:361-377 | for every flag exactly one of `is_dev`, `is_test`, `is_prod` holds, and `is_dev` holds exactly for flags that are no alias |
| App.MakePaths | alx/app.py:28-53 | the `Paths` fields joined from the root, the script directory's base name and the app name; the layout lemmas below state each field |
| App.DirLayout | alx/app.py:28-43 | joining a directory onto a root without a trailing `/`, and a file onto that, inserts exactly one `/` each time |
| App.PathsDirectories | alx/app.py:28-43 | for a root not ending in `/` and a base name without `/`: `bin` is `root/bin`, `data` is `root/data/<basename>`, `top` is `root/scripts/<basename>` |
| App.BinLayout | alx/app.py:30 | for a root not ending in `/`, `bin` is `root/bin` |
| App.DataLayout | alx/app.py:32 | for a root not ending in `/` and a relative base name, `data` is `root/data/<basename>` |
| App.TopLayout | alx/app.py:42 | for a root not ending in `/` and a relative base name, `top` is `root/scripts/<basename>` |
| App.LogPathLayout | alx/app.py:36 | for a root not ending in `/` and a relative base name, `log` is `root/log/<basename>` |
| App.LogFileLayout | alx/app.py:38 | `logfile` is `<appname>.log` joined onto `log` with one `/` unless `log` already ends in `/` |
| App.PathsLogLayout | alx/app.py:36-38 | for a root not ending in `/`, a relative base name without a trailing `/` and a relative app name: `log` is `root/log/<basename>`, and `logfile` is `<appname>.log` inside it |
| App.PathsConfigLayout | alx/app.py:50-53 | for a root not ending in `/`, a relative app name and a relative ini file: `config` is `root/etc/<appname>.ini`, or `root/etc/<inifile>` when an ini file is named |
| App.SlashRootLayout | alx/app.py:28-53 | for a root ending in `/` (the root `/`), `bin`, `data`, `log`, `top` and `config` are joined onto it without a doubled `/`: `/bin`, `/data/<basename>`, `/log/<basename>`, `/scripts/<basename>`, `/etc/<appname>.ini` or `/etc/<inifile>` |
| App.AbsoluteIniFile | alx/app.py:52-53 | an absolute ini file name is the configuration path itself, whatever the root |
| App.LookupPaths | alx/app.py:217-218 | what `hasattr(obj, 'paths')` and `obj.paths.data` find: no `paths`, a `Paths` object with its data directory, or a `paths` value without `data`; `DataTokenFirst` pins each case's effect on binding |
| App.Infer | alx/app.py:216-244 | the cascade for one raw value, in the source's order: `$data`, boolean literals, `int()`, `float()`, JSON, raw string; `DataTokenFirst`, `BooleanLiteralsOnly`, `DecimalBindsAsInt`, `JsonBranch` and `StringFallbackIsRaw` state what each branch decides |
| App.BindAll | alx/app.py:213-246 | binding the section key by key in order and stopping at the first exception; `BindAllIsOverride`, `BindLeavesOtherKeys` and `BindAddsOnlySectionKeys` state its result |
| App.ParseConfig | alx/app.py:212-246 | the loop leaves on the object exactly the attributes, and returns exactly the exception, of binding the section key by key and stopping at the first exception (`BindAll`) |
| App.BindEnvironmentSection | alx/app.py:187-188 | the app's configuration is bound only when the file was read and has a section named by the environment; otherwise nothing changes |
| App.DataTokenFirst | alx/app.py:216-221 | a value holding `$data` is decided before any other test: skipped without `paths`, substituted when `paths.data` exists, `AttributeError` when `paths` has no `data` |
| App.DataWithoutPathsSkips | alx/app.py:216-221 | a `$data` value on an object without `paths` changes no attribute and raises nothing |
| App.DataPathSubstitution | alx/app.py:216-219 | `$data` followed by a tail without `$` binds as the data directory followed by that tail |
| App.BooleanLiteralsOnly | alx/app.py:222-224 | a value binds as a boolean if and only if it is one of `True`, `False`, `true`, `false`; `True`/`true` give true |
| App.DecimalBindsAsInt | alx/app.py:226-229 | every integer written in decimal with at most 4300 digits binds as that integer, not as a boolean or a float |
| App.LongDecimalBindsAsFloat | alx/app.py:226-233 | an integer written with more than 4300 digits is refused by `int()` and binds as a float |
| App.UpperCaseTrueIsString | alx/app.py:222-229 | `TRUE` binds as the string `TRUE`, and `1` binds as the integer 1 |
| App.WordBindsAsString | alx/app.py:222-244 | a value starting with a letter other than `i`/`n`, with no `$` and no boolean literal, binds as itself |
| App.JsonBranch | alx/app.py:237-242 | a value past the numeric tests that opens with `[` or `{` binds as JSON when `json.loads` accepts it, and raises otherwise |
| App.StringFallbackIsRaw | alx/app.py:231-244 | without `$data`, a value binds as a string if and only if it is no boolean, `int()` or `float()` literal and opens with neither `[` nor `{`; the string is the raw value |
| App.BindLeavesOtherKeys | alx/app.py:213-244 | an attribute whose name is not a key of the section is kept, with its value, and none appears |
| App.BindAddsOnlySectionKeys | alx/app.py:213-244 | after binding, every attribute is an old attribute or a key of the section |
| App.BindingsKeys | alx/app.py:213-244 | what a section binds is keyed only by keys of the section |
| App.BindAllIsOverride | alx/app.py:213-244 | when the section does not rebind `paths`, binding raises nothing exactly when the section's own bindings exist, and the result is the old attributes overridden by them |
| App.BindIdempotent | alx/app.py:213-244 | when the section has no `paths` key and binding it raised nothing, binding it a second time gives what binding it once gave |
| App.PlainAndIntegerScenario | tests/test_app.py:46-59 | `foo = bar` and `baz = 123` bound onto an empty object give `foo` the string `bar` and `baz` the integer 123 |
| Html.HtmlBuilder.constructor | alx/html.py:13-28 | a fresh builder: html `<html>\n`, body `<body>\n`, head `<head>\n` plus the title line only when a title is given, css the library css in `<style>` tags |
| Html.HtmlBuilder.SetCss | alx/html.py:30-37 | css becomes `<style>\n` + css + `\n</style>\n`; nothing else changes |
| Html.HtmlBuilder.AddHeading | alx/html.py:39-47 | appends `<hN>` + text + `</hN>\n`, N in decimal; html, head and css unchanged |
| Html.HtmlBuilder.AddH1 | alx/html.py:49-55 | appends `<h1>` + text + `</h1>\n` |
| Html.HtmlBuilder.AddH2 | alx/html.py:57-63 | appends `<h2>` + text + `</h2>\n` |
| Html.HtmlBuilder.AddH3 | alx/html.py:65-71 | appends `<h3>` + text + `</h3>\n` |
| Html.HtmlBuilder.AddH4 | alx/html.py:73-79 | appends `<h4>` + text + `</h4>\n` |
| Html.HtmlBuilder.AddH5 | alx/html.py:81-87 | appends `<h5>` + text + `</h5>\n` |
| Html.HtmlBuilder.AddParagraph | alx/html.py:89-95 | appends `<p>\n` + paragraph, with no closing tag |
| Html.HtmlBuilder.AddBoldText | alx/html.py:97-103 | appends the text in `<b>` tags |
| Html.HtmlBuilder.AddItalicText | alx/html.py:105-111 | appends the text in `<i>` tags |
| Html.HtmlBuilder.AddBoldItalicText | alx/html.py:113-119 | appends the text in `<b><i>` tags |
| Html.HtmlBuilder.AddUl | alx/html.py:121-125 | appends `<ul>\n` |
| Html.HtmlBuilder.AddOl | alx/html.py:127-131 | appends `<ol>\n` |
| Html.HtmlBuilder.AddItem | alx/html.py:133-139 | appends `  <li>` + item + `</li>\n` |
| Html.HtmlBuilder.EndOl | alx/html.py:141-145 | appends `</ol>\n` |
| Html.HtmlBuilder.EndUl | alx/html.py:147-151 | appends `</ul>\n` |
| Html.HtmlBuilder.AddTable | alx/html.py:153-157 | appends `<table>\n` |
| Html.HtmlBuilder.StartRow | alx/html.py:159-160 | appends `  <tr>\n` |
| Html.HtmlBuilder.AddCell | alx/html.py:162-167 | appends `    <td>v</td>\n` without a style and `    <td style='s'>v</td>\n` with one |
| Html.HtmlBuilder.EndRow | alx/html.py:169-170 | appends `  </tr>\n` |
| Html.HtmlBuilder.AddRow | alx/html.py:172-183 | appends `  <tr>\n`, one `    <t{tag}>v</t{tag}>\n` per value in order, then `  </tr>\n` |
| Html.HtmlBuilder.AddHeadings | alx/html.py:185-186 | is `AddRow` with tag `h` |
| Html.HtmlBuilder.EndTable | alx/html.py:188-189 | appends `</table>\n` |
| Html.HtmlBuilder.AddHtml | alx/html.py:191-197 | appends the raw html and a newline |
| Html.HtmlBuilder.AddUrl | alx/html.py:199-200 | appends `<a href='target'>text</a>\n` |
| Html.HtmlBuilder.GetHtml | alx/html.py:202-216 | the document starts with html + head + css + `</head>\n`, ends with body + `</body>\n</html>\n`, and holds nothing else |
| Html.CellsConcat | alx/html.py:181-182 | the cells of concatenated value lists are the concatenated cells |
| Html.CellsOneEach | alx/html.py:181-182 | each value contributes its own cell, between the cells of the values before and after it |
| Html.UnstyledCellIsDataCell | alx/html.py:162-183 | an unstyled `add_cell` writes the same cell as `add_row` with tag `d` |
| Mail.MailKindOf | alx/mail.py:34-41 | `plain` and `html` are accepted, and every other type is rejected |
| Mail.NewMailer | alx/mail.py:20-60 | construction succeeds if and only if the type is `plain` or `html`; a plain mail's body starts empty, an html mail's starts as `<body>\n` |
| Mail.Mailer.constructor | alx/mail.py:20-60 | sender and mail host from the configuration, subject `No subject`, no recipients, cc or bcc |
| Mail.Mailer.SetFrom | alx/mail.py:62-67 | replaces the sender and nothing else |
| Mail.Mailer.SetSubject | alx/mail.py:69-74 | replaces the subject and nothing else |
| Mail.Mailer.AddRecipient | alx/mail.py:76-87 | appends to exactly the list its type names (`to`, `cc`, `bcc`); an unknown type changes no list |
| Mail.SplitAddresses | alx/mail.py:100 | the pieces between maximal delimiter runs: none holds a delimiter, and only the first and last can be empty |
| Mail.SplitJoinedAddresses | alx/mail.py:97-100 | non-empty addresses joined by any delimiter run split back into the same addresses |
| Mail.TrailingSeparatorAddsEmptyAddress | alx/mail.py:100 | a trailing delimiter run adds one empty address after the last one |
| Mail.Mailer.SetRecipients | alx/mail.py:89-103 | each element of a list, or each piece of a split string, is routed in order to the list the type names |
| Mail.Mailer.AddCc | alx/mail.py:105-111 | the addresses are appended to cc only |
| Mail.Mailer.AddBcc | alx/mail.py:113-119 | the addresses are appended to bcc only |
| Mail.Mailer.SetBody | alx/mail.py:121-122 | replaces the body |
| Mail.Mailer.AddParagraph | alx/mail.py:124-128 | plain mail appends `\n` + p + `\n`; html mail appends the html paragraph |
| Mail.Mailer.AddText | alx/mail.py:130-134 | plain mail appends t + `\n`; html mail appends the html paragraph |
| Mail.Dedup | alx/mail.py:181-188 | the result has no duplicates and the same addresses as the input |
| Mail.Deliver | alx/mail.py:201-219 | at most 20 attempts and one pause fewer; it stops at the first success and fails only after 20 failed attempts; exactly on failure it raises, and what it raises is the exception of the twentieth attempt |
| Mail.ReraiseAsWrittenLosesError | alx/mail.py:216-217 | the handler as written replaces the last delivery error by a `TypeError` (see Findings) |
| Mail.Mailer.MessageBody | alx/mail.py:193-196 | the body part: the html document for html mail, the body and a newline for plain mail; `Send` attaches it |
| Mail.Mailer.Send | alx/mail.py:177-219 | recipients, and cc and bcc, are de-duplicated to the same addresses; the headers are built from them, with cc/bcc only when non-empty; the body is the html document or the plain body and a newline; the sender, subject and mail host are unchanged; delivery, and the exception raised when all attempts fail, follow `Deliver` |
| ItrsToolkit.Toolkit.constructor | alx/itrs/toolkit.py:6-13 | no headlines, rows or headings, both counters 0, the counters match their lists |
| ItrsToolkit.Toolkit.AddHeadline | alx/itrs/toolkit.py:15-16 | stores the value unchanged; a new label goes last, and an existing one keeps its place |
| ItrsToolkit.Toolkit.AddHeading | alx/itrs/toolkit.py:22-26 | appends the stripped heading, unescaped, and keeps the column counter equal to the number of headings |
| ItrsToolkit.Toolkit.AddHeadings | alx/itrs/toolkit.py:18-20 | one stripped heading per piece of the text split on the delimiter, in order; the empty delimiter raises and changes nothing |
| ItrsToolkit.Toolkit.AddHeadingList | alx/itrs/toolkit.py:19-20 | `add_heading` for each piece in order: the headings gain the stripped pieces |
| ItrsToolkit.Toolkit.AddRowFromList | alx/itrs/toolkit.py:28-37 | the caller's list is escaped in place and appended as one row; the row counter follows |
| ItrsToolkit.Toolkit.AddRowFromText | alx/itrs/toolkit.py:28-37 | the text split on the delimiter, each piece escaped, is appended as one row; the empty delimiter raises and changes nothing |
| ItrsToolkit.Escape | alx/itrs/toolkit.py:34 | every `,` in an escaped cell is preceded by `\` |
| ItrsToolkit.ReadEscapedCell | alx/itrs/toolkit.py:34 | an escaped cell followed by more text reads back as the original cell, unless a trailing `\` meets a separating `,` |
| ItrsToolkit.ReadRowLine | alx/itrs/toolkit.py:32-62 | a written row whose cells do not end in `\` reads back as exactly the cells that were added |
| ItrsToolkit.BackslashMakesRowsAmbiguous | alx/itrs/toolkit.py:34 | `\` is not escaped, so the rows `a\`,`b` and `a,b` are written identically |
| ItrsToolkit.Toolkit.Display | alx/itrs/toolkit.py:52-62 | the headings joined by `,`, then one `<!>label,value` line per headline in insertion order, then one `,`-joined line per row |
| ItrsToolkit.Toolkit.Ok | alx/itrs/toolkit.py:48-50 | `samplingStatus` becomes `OK ` + message, then the output is rendered |
| ItrsToolkit.Toolkit.Warning | alx/itrs/toolkit.py:44-46 | `samplingStatus` becomes `WARN ` + message, then the output is rendered |
| ItrsToolkit.Toolkit.Error | alx/itrs/toolkit.py:39-42 | `samplingStatus` becomes `FAIL ` + message, the output is rendered, and the exit status is 1 |
| Alert.SeverityStyle | alx/itrs/alert.py:7-28 | a style exists exactly for `critical`, `warning` and `ok` |
| Alert.SeverityStyles | alx/itrs/alert.py:7-28 | the three styles are `background-color: #FF7474;`, `#FFCF80` and `#BCF0BC` |
| Alert.NewAlert | alx/itrs/alert.py:16-28 | an alert exists exactly for a coloured severity, with style `background-color: ` + colour + `;` |
| Alert.Title | alx/itrs/alert.py:44 | title-casing keeps the length |
| Alert.TitleOfSeverity | alx/itrs/alert.py:44 | a lower-case severity is shown with its first letter raised (`critical` → `Critical`) |
| Alert.FixedRows | alx/itrs/alert.py:40-58 | the eleven rows every alert has, in the order the builder calls write them; `FixedRowsStyled` and `FixedRowsInOrder` state their content |
| Alert.AlertRows | alx/itrs/alert.py:40-65 | the whole table: the fixed rows, then the column section; `ColumnRowsFollowFixedRows` and `StyledRowsAreSeverityAndValue` state its shape |
| Alert.FixedRowsStyled | alx/itrs/alert.py:40-58 | the fixed part has eleven rows, and only the severity row and the value row are styled |
| Alert.StyledRowsAreSeverityAndValue | alx/itrs/alert.py:42-65 | across the whole table, the severity and value rows are the only styled rows |
| Alert.FixedRowsInOrder | alx/itrs/alert.py:46-53 | Gateway, Application, Location, Host, Date, Managed Entity, Sampler, Dataview follow the severity row in that order; the Date row shows the given date |
| Alert.ColumnsHeadingIffColumns | alx/itrs/alert.py:60-61 | the `Dataview Columns` heading row is present if and only if there are dataview columns |
| Alert.ColumnRowsAreNonEmptyColumns | alx/itrs/alert.py:63-65 | every column row is a column with a non-empty value, and every such column has a row |
| Alert.ColumnRowsFollowFixedRows | alx/itrs/alert.py:40-65 | the table is the eleven fixed rows, then the heading and the column rows in column order when there are columns |
| Alert.FirstRowOpensTable | alx/itrs/alert.py:40-41 | the rendered table opens with the `Variable`/`Value` heading row |
| Alert.WriteStyledRow | alx/itrs/alert.py:42-45 | start row, a plain label cell, a styled cell, end row |
| Alert.WriteRow | alx/itrs/alert.py:41-58 | writing one row through the builder appends exactly its rendering |
| Alert.WriteRows | alx/itrs/alert.py:41-58 | writing the fixed rows appends their renderings in order |
| Alert.WriteColumns | alx/itrs/alert.py:63-65 | appends one row per column with a non-empty value, in order |
| Alert.WriteColumnRows | alx/itrs/alert.py:60-65 | appends the heading and the column rows when there are columns, and nothing otherwise |
| Alert.AlertTableText | alx/itrs/alert.py:40-67 | the table text is the fixed rows' text followed by the column section's, and opens with the heading row |
| Alert.BodyLayout | alx/itrs/alert.py:38-69 | the body starts `<body>\n<table>\n` and the heading row, and ends `</table>\n` |
| Alert.Create | alx/itrs/alert.py:31-69 | the returned body is `<body>\n<table>\n`, the rendered table rows, then `</table>\n` |
| Misc.SpacesToUnderscores | alx/misc.py:15-25 | the length is kept, no `' '` is left, and every other character is unchanged |
| Misc.Normalize | alx/misc.py:12 | `" ".join(s.strip().lower().split())`; `NormalizeShape`, `NormalizeEmpty` and `NormalizeIdempotent` state what it yields |
| Misc.WordsNoUpper | alx/misc.py:12 | the words of a text without upper-case letters are non-empty, without whitespace and without upper case |
| Misc.JoinedWordsAreNormalized | alx/misc.py:12 | such words joined by single spaces have the normalised shape |
| Misc.NormalizeShape | alx/misc.py:12 | the result has no whitespace at either end, no whitespace other than single spaces, and no upper-case letter |
| Misc.NormalizeEmpty | alx/misc.py:12 | the result is empty if and only if the input is empty or all whitespace |
| Misc.NormalizeIdempotent | alx/misc.py:2-12 | normalising twice is normalising once |
| Text.Strip | alx/misc.py:12 | the result neither starts nor ends with whitespace |
| Text.LowerHasNoUpper | alx/misc.py:12 | a lowered text holds no upper-case letter |
| Text.LowerUnchanged | alx/misc.py:12 | lowering a text without upper-case letters leaves it unchanged |
| Text.Words | alx/misc.py:12 | every word is non-empty and free of whitespace |
| Text.WordsOfJoin | alx/misc.py:12 | splitting words joined by single spaces gives them back |
| Text.Split | alx/itrs/toolkit.py:19 | splitting on a separator yields at least one piece |
| Text.SplitAbsent | alx/itrs/toolkit.py:19 | a text that does not contain the separator splits into exactly itself |
| Text.SplitAtFirst | alx/itrs/toolkit.py:19 | the first piece ends at the leftmost occurrence of the separator, and splitting resumes right after that occurrence |
| Text.SplitOverlapping | alx/itrs/toolkit.py:30 | overlapping occurrences are cut leftmost first: `"aaa"` split on `"aa"` gives `""` and `"a"` |
| Text.Join | alx/misc.py:12 | `sep.join(parts)`; `WordsOfJoin` and `JoinSplit` pair it with `split` |
| Text.JoinSplit | alx/itrs/toolkit.py:19 | joining the pieces of a split with the same separator restores the text |
| Text.ReplaceChar | alx/misc.py:25 | replacing one character by another keeps the length and changes exactly those positions |
| Text.Replace | alx/app.py:218 | `s.replace(pat, rep)`, non-overlapping occurrences left to right; `ReplaceAbsent`, `ReplaceChar` and `App.DataPathSubstitution` state its effect |
| Text.ReplaceAbsent | alx/app.py:218 | replacing a pattern that does not occur changes nothing |
| Text.IsIntLiteral | alx/app.py:228 | what `int()` accepts: optional whitespace, an optional sign, digits with single underscores between them, at most 4300 digits; `IntLiteralRoundTrip` and `LetterLedNotNumeric` state which texts pass |
| Text.IntLiteralValue | alx/app.py:228 | the value `int()` reads from such a literal; `IntLiteralRoundTrip` pins it on every decimal rendering |
| Text.IsFloatLiteral | alx/app.py:233 | what `float()` accepts: `inf`, `infinity`, `nan` in any case, or a decimal mantissa with an optional exponent, after an optional sign; `LetterLedNotNumeric` states what it rejects |
| Text.IntLiteralRoundTrip | alx/app.py:228 | `int()` accepts every integer's decimal rendering of at most 4300 digits and reads it back as that integer |
| Text.LongDecimalIsFloat | alx/app.py:226-233 | a decimal rendering of more than 4300 digits is refused by `int()` and accepted by `float()` |
| Text.LetterLedNotNumeric | alx/app.py:226-236 | a text starting with a character no numeric literal can start with is rejected by `int()` and `float()` |

## Left out

- I/O:
  - creating the `data` and `log` directories;
  - reading `app.ini` and `alx.ini`;
  - logging;
  - key files and encryption;
  - `sys.argv`, `os.path.abspath` and argparse.

  `Paths` takes the root, the script directory's base name and the app name as inputs. The library css, the mail sender and the mail host are parameters.
- configparser behaviour: a section is the sequence of (key, raw value) pairs it yields, with `[DEFAULT]` merged and interpolation done.
- Numbers and JSON:
  - `float()` is modelled as its accepted literal grammar (decimal, exponent, `inf`/`infinity`/`nan`), and the bound payload is the accepted text. Floating-point values are not modelled.
  - `json.loads` is the parameter `jsonOk`, and the payload is the raw text, so the key order of an `OrderedDict` is not modelled.
  - `int()` is modelled over ASCII digits, with an optional sign, surrounding whitespace, and single underscores between digits. Other Unicode digits are not modelled.
  - `int()`'s digit limit is the default 4300 of `sys.get_int_max_str_digits()` (Python 3.11 and later, and the security releases before them). Raising it with `sys.set_int_max_str_digits`, `PYTHONINTMAXSTRDIGITS` or `-X int_max_str_digits` is not modelled, nor are the older interpreters without a limit.
- Text: whitespace and case are modelled over ASCII. Python's Unicode whitespace beyond ASCII and its Unicode case mapping are not modelled.
- `str()` of non-string values: cells, values and headings are already strings.
- MIME and SMTP: headers and the body part are an `Outgoing` record, and the outcome of each delivery attempt is the input `outcome`. `add_attachment` and `get_mime_message` are not modelled.
- Mail.Dedup: `list(set(xs))` has no specified order, so only distinctness and the set of addresses are promised, not the order.
- Mail.Mailer: the subclassing of `ALXhtml` is a composed `HtmlBuilder`, `doc`.
- Mail.Deliver: the five-second pause is counted, not timed. The exception each failed attempt raises is the input `failure`. After the twentieth failure the model raises that attempt's exception, as the handler intends; the handler as written raises a `TypeError` instead (see Findings). Exceptions outside the handler's list, which the source lets through at once, are not modelled.
- ItrsToolkit.Toolkit.AddHeadings: Python's `split(None)` is not modelled; the delimiter is a string. The empty delimiter's `ValueError` is `ok == false`.
- ItrsToolkit.Toolkit.AddRowFromList: the caller's list is an `array`, escaped in place. The stored row is its contents at that moment, so later changes to the caller's list do not show in `rows`.
- ItrsToolkit.Toolkit.Display: the output is a sequence of lines. Writing to the file or to stdout is not modelled.
- ItrsToolkit.Toolkit.Error: exiting the process is the returned `exitStatus`.
- App.PathsLogLayout: `basename` must not end in `/`; a directory name taken from `os.path.basename` never does.
- Alert.Create:
  - The Geneos environment is the `AlertEnv` record, with its dataview columns as an ordered list of (column, value) pairs.
  - The formatted date is a parameter.
  - The seventeen builder calls that write the eleven fixed rows are a loop over the list `FixedRows`, writing the same markup in the same order.
  - `alert.py:60` reads `e.dataview_columns`, which the `Environment` class of `alx/itrs/environment.py:4-29` never sets, so the source as written raises `AttributeError` there. The model takes the columns from `AlertEnv.dataviewColumns`, as the code evidently intends.
- html.py constructor: the library configuration read is left out, and its css is a parameter. `alx/html.py:7` imports `ALXApp` while `alx/app.py:56` defines `ALXapp`, so the module as written fails to import; the model follows the evident intent of reading the library css.

## Findings

| source | as written | input that shows it | evidently intended | confidence | as-written member | corrected member |
|---|---|---|---|---|---|---|
| alx/mail.py:216-217 | after the twentieth failed attempt the handler calls `type(ex).__name__(...)`, a string, which raises `TypeError: 'str' object is not callable` | twenty attempts that each raise `SMTPServerDisconnected("Connection unexpectedly closed")` | re-raise the last delivery error, keeping its class and message | high, not executed | Mail.ReraiseAsWrittenLosesError | Mail.Deliver |
