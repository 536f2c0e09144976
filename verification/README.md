# WHEN-line generator, modelled in Dafny

The web form takes a spreadsheet and a comma-separated list of required
column names. For each data row it prints one line of a conditional
expression language:

    WHEN "<c1>" <v1> AND "<c2>" <v2> ... THEN "<cn>" <vn>

With a single required column the line is `WHEN "<c1>" <v1>`. The model
covers the handler's whole POST branch as pure functions, in this order:

- **Column list.** `Columns.ParseColumnList` splits the typed text at
  commas, strips white space the way Python's `str.strip()` does, and drops
  blank entries.
- **Schema check.** `Columns.MissingColumns` lists the required columns
  that the sheet lacks, in the order they were asked for. A non-empty list
  stops generation.
- **Column kinds.** `Sheet.KindOf` makes a column numeric in two cases: its
  name upper-cases to `COST`, or the reader gave it a numeric dtype. Every
  other column is text.
- **Cells.** In a numeric column, `Clauses.NumericValueOf` deletes `$` and
  `,` from a string cell and parses the rest. A cell that does not parse is
  kept as the stripped text (`RawFallback`) and does not stop anything. A
  text column shows the cell verbatim between single quotes.
- **Clauses.** `Clauses.Clause` writes the quoted column name, a space and
  the value. A parsed value gets four decimals in a COST column and the
  plain float format in any other numeric column.
- **Lines.** `Clauses.AssembleLine` joins one row's clauses with ` AND `,
  except that the last one follows ` THEN `. `Generator.Generate` produces
  one line per row, in row order.

`Generator.Index` follows the handler's loops step by step and is proved to
compute `Generate`.

Modules:

- `Strings` has the Python string built-ins the handler relies on:
  `split`, `join`, `strip`, `replace(c, '')` and the part of `upper()` that
  matters here.
- `Sheet` has the table the workbook reader hands over and the kind of a
  column.
- `Columns` has the column list and the missing-column check.
- `Clauses` turns one cell into a clause and one row into a line.
- `Generator` holds the whole branch and its loops.
- `Wrappers` has `Option`.

Three behaviours of app.py that the model keeps as written:

- app.py:47 reassigns `val` before the `try`, so a numeric string that
  fails to parse is shown with `$` and `,` already removed, not as the
  original cell text.
- A blank cell is NaN in the data frame and `float()` accepts NaN
  (app.py:49), so a blank cell in a numeric column is printed by the
  column's number format. app.py has no `NULL` token.
- app.py does not check for blank cost values, does not add `COST` to the
  column list, and emits no `CASE ... END` block.

## Model

| member | source | states |
|---|---|---|
| Strings.Split | app.py:16 | `columns.split(",")`: there is always at least one piece, no piece contains the separator, and joining the pieces with it gives back the input |
| Strings.SplitJoin | app.py:16 | splitting the join of comma-free pieces returns exactly those pieces |
| Strings.Trim | app.py:16 | `strip()`: the result has no white space at either end and sits in the input between two runs of white space |
| Strings.TrimUnique | app.py:16 | stripping white space around a stripped core returns that core, so `strip()` is determined by the input |
| Columns.ParseColumnList | app.py:16 | every entry of the column list is non-empty, comma-free and has no white space at either end |
| Columns.ParseColumnListPiece | app.py:16 | a comma-free text gives its stripped self as the only entry, or nothing when it is blank |
| Columns.ParseColumnListConcat | app.py:16 | the list for `a,b` is the list for `a` followed by the list for `b`, so entries keep their input order |
| Columns.ParseColumnListRoundTrip | app.py:16 | proper names joined with commas parse back to the same names |
| Columns.ParseColumnListIdempotent | app.py:16 | joining a parsed list with commas and parsing it again changes nothing |
| Columns.MissingColumns | app.py:25 | a name is listed exactly when it is required and absent, as often as it was required, in the required order |
| Columns.NoneMissing | app.py:25-28 | nothing is missing exactly when every required name is a sheet column |
| Sheet.CostNameSpelling | app.py:33 | `col.upper() == "COST"` holds exactly for c/C, o/O, then s/S/ſ with t/T, or one of the ligatures ﬅ/ﬆ |
| Sheet.KindBySpelling | app.py:30-38 | a column is numeric exactly when it is spelled as COST or its dtype is numeric, and a COST spelling is numeric whatever the dtype |
| Generator.InferKinds | app.py:30-38 | the `col_types` loop gives every required column, and only those, its kind |
| Strings.WithoutTwice | app.py:47 | deleting one set of characters and then another is the same as deleting both sets at once |
| Strings.WithoutKeeps | app.py:47 | deleting characters keeps every other character, in order and as often as it occurs |
| Clauses.StripMoney | app.py:46-47 | the text handed to `float()` has no `$` and no `,` |
| Clauses.StripMoneyKeeps | app.py:47 | apart from `$` and `,`, the stripped text keeps every character of the cell, in order and with its count |
| Clauses.StripMoneyIdempotent | app.py:47 | stripping an already stripped text changes nothing |
| Clauses.NumericValueOf | app.py:45-55 | the fallback happens exactly for a string cell whose stripped text does not parse, and then it carries that stripped text; a parsed string cell carries what the parser returned; a number cell keeps its number and a blank cell is NaN |
| Clauses.Clause | app.py:43-58 | every clause starts with the column name in double quotes and a space |
| Clauses.ClauseColumn | app.py:43-58 | for a name without `"`, the column name is the second piece when the clause is split at double quotes |
| Clauses.TextClauseVerbatim | app.py:57-58 | a text cell appears between single quotes exactly as stored, with no escaping, at a fixed position |
| Clauses.TextClauseOfNumber | app.py:57-58 | a number cell of a text column is quoted as its printed form, and a blank cell as the printed form of NaN |
| Clauses.BlankNumericClause | app.py:45-56 | a blank cell of a numeric column is NaN printed by the column's number format (four decimals for a COST spelling), never a NULL token |
| Clauses.NumberNumericClause | app.py:45-56 | a number cell of a numeric column keeps its value, printed with four decimals for a COST spelling and the plain float format otherwise |
| Clauses.FallbackClause | app.py:54-56 | an unparseable numeric cell gives `"col" <stripped text>`, unquoted |
| Clauses.CostClauseFourDecimals | app.py:33-53 | any COST spelling, whatever its dtype, renders a parsed value with the four-decimal format |
| Clauses.OtherClausePlain | app.py:52-53 | any other numeric column renders a parsed value with the plain float format |
| Clauses.RowClauses | app.py:41-59 | one clause per required column |
| Clauses.RowClausesAt | app.py:41-59 | clause `j` is the clause of required column `j`, built from the row's cell and the column's kind |
| Clauses.RowClausesAppend | app.py:41-59 | one more required column adds its clause at the end and changes nothing before it |
| Clauses.AssembleLine | app.py:60-65 | the line starts with `WHEN ` and the first clause and ends with the last clause; one clause gives exactly `WHEN c1`; two or more put ` THEN ` right before the last clause |
| Clauses.ThenReplacesLastAnd | app.py:60-63 | putting ` AND ` back in place of the final ` THEN ` gives `WHEN ` and all clauses joined with ` AND ` |
| Clauses.RowLineStart | app.py:60-65 | every row's line starts with `WHEN ` and the first required column in double quotes |
| Generator.ReadyWhenNoneMissing | app.py:25-44 | once no column is missing, `row[col]` and `col_types[col]` exist for every row and every required column |
| Generator.CompileRows | app.py:39-66 | one line per row; line `i` is the line of row `i` |
| Generator.RowsIndependent | app.py:40-66 | the lines of two sheets' rows put together are the two sheets' lines put together |
| Generator.CompileRow | app.py:41-65 | the per-row loop builds that row's line |
| Generator.CompileLines | app.py:39-67 | the row loop produces the lines of all rows, in row order |
| Generator.Generate | app.py:13-67 | no file or an empty column list gives no output; otherwise the outcome is the missing-column list when it is non-empty; otherwise there is one line per row, each starting with `WHEN` and the first quoted column |
| Generator.GenerateLines | app.py:39-67 | line `i` is the assembly of row `i`'s clauses, one per required column in the listed order, each with the kind the column inference gives |
| Generator.CellsNeverAbort | app.py:48-56 | with a file, a column list and no missing column, there are lines whatever the cells hold |
| Generator.Index | app.py:13-67 | the handler's step-by-step computation equals `Generate` |

## Left out

- Flask, the form and the template are not modelled. The uploaded file is an `Option<Table>` and the column text is a string parameter. The messages of app.py:19 and app.py:27 are replaced by the `NoInput` and `Missing` outcomes.
- The temporary file is not modelled (app.py:21-22, 71): it is I/O.
- `pd.read_excel` is not modelled (app.py:24). Its result is a `Table`, and the dtype test of app.py:35 is the table's `numericColumns` set.
- Sheet.Table: column labels are strings. A header that the reader turns into a non-string label, such as the year 2023 read as an integer, is not in `columns`, so a typed "2023" is reported missing, as `col not in df.columns` does at app.py:25.
- The `except Exception` path is not modelled (app.py:68-69). It catches reader and I/O failures. No modelled step can raise.
- Clauses.NumberFormat: `float()` (app.py:49), the two f-string number formats (app.py:51 and 53) and the printed form of a number cell quoted in a text column (`show`, app.py:58) are function fields of a record rather than concrete digit algorithms. Every property holds whatever those functions produce. Sheet.Number has no negative zero: `float("-0")` is `-0.0`, which Python prints as `-0.0` and `-0.0000`, and a parser that returns `Finite(0.0)` for it loses the sign those printed forms show.
- Strings.Upper: this is not a general `str.upper()`. It maps ASCII letters, the characters whose upper case is spelled only with C, O, S and T (ſ, ß, ﬅ, ﬆ), and dotless ı; every other character, ẗ included, is left unchanged. That is enough to decide the `== "COST"` comparison exactly.
- Sheet.Cell: dates, booleans and other pandas cell types are left out. A cell is a number, a string or blank.
- Sheet.WellFormed: `Generate` assumes every row has a cell for every sheet column, as a data frame does. Duplicate column names are left out; for those, pandas returns a series rather than a cell.
