/** One cell to one clause, and one row's clauses to one output line
    (app.py:40-66).

    Python's `float()`, the two f-string number formats and the text of a
    stored number quoted in a text column are not spelled out: the
    generator is handed them as a `NumberFormat`, and everything proved
    here holds whatever digits those functions produce.
 */
module Clauses {
  import opened Wrappers
  import opened Strings
  import opened Sheet

  datatype NumberFormat = NumberFormat(
    parse: string -> Option<Number>,  // float(text); None where it raises
    fixed4: Number -> string,         // f"{x:.4f}"
    repr: Number -> string,           // f"{x}" of a float
    show: Number -> string)           // f"'{val}'" of a number cell in a text column

  /** The characters deleted from a numeric string cell before parsing:
      the currency sign and the thousands separator. */
  const MoneyChars: set<char> := {'$', ','}

  /** `val.replace('$', '').replace(',', '')`, one pass per character as the
      source does it. */
  function StripMoney(s: string): (r: string)
    ensures '$' !in r && ',' !in r
    ensures r == Without(s, MoneyChars)
  {
    WithoutTwice(s, {'$'}, {','});
    assert {'$'} + {','} == MoneyChars;
    Without(Without(s, {'$'}), {','})
  }

  /** What the string handed to `float()` keeps of the cell: every other
      character, in order and as often as it occurs. */
  lemma StripMoneyKeeps(s: string)
    ensures Subsequence(StripMoney(s), s)
    ensures forall d :: d != '$' && d != ',' ==> multiset(StripMoney(s))[d] == multiset(s)[d]
  {
    WithoutKeeps(s, MoneyChars);
  }

  /** Stripping twice is stripping once. */
  lemma StripMoneyIdempotent(s: string)
    ensures StripMoney(StripMoney(s)) == StripMoney(s)
  {
    var r := StripMoney(s);
    WithoutNothing(r, MoneyChars);
  }

  /** A numeric cell after normalisation: either the number `float()`
      produced, or, when it raised, the text that was handed to it. */
  datatype NumericValue = Parsed(n: Number) | RawFallback(raw: string)

  /** app.py:46-55 up to the choice of format. A blank cell is NaN, which
      `float()` accepts. */
  function NumericValueOf(cell: Cell, fmt: NumberFormat): (v: NumericValue)
    ensures v.RawFallback? <==> cell.Str? && fmt.parse(StripMoney(cell.s)).None?
    ensures v.RawFallback? ==> v.raw == StripMoney(cell.s) && '$' !in v.raw && ',' !in v.raw
    ensures cell.Str? && v.Parsed? ==> fmt.parse(StripMoney(cell.s)) == Some(v.n)
    ensures cell.Num? ==> v == Parsed(cell.n)
    ensures cell.Blank? ==> v == Parsed(NaN)
  {
    match cell
    case Num(n) => Parsed(n)
    case Blank => Parsed(NaN)
    case Str(s) =>
      var stripped := StripMoney(s);
      match fmt.parse(stripped)
      case Some(n) => Parsed(n)
      case None => RawFallback(stripped)
  }

  /** The text after the column name in a numeric clause: four decimals for
      the cost column, the plain float format otherwise, the stripped text
      when parsing failed. */
  function NumericText(col: string, v: NumericValue, fmt: NumberFormat): string
  {
    match v
    case Parsed(n) => if IsCostName(col) then fmt.fixed4(n) else fmt.repr(n)
    case RawFallback(raw) => raw
  }

  /** `f"{val}"` of a cell in a text column. */
  function CellText(cell: Cell, fmt: NumberFormat): string
  {
    match cell
    case Str(s) => s
    case Num(n) => fmt.show(n)
    case Blank => fmt.show(NaN)
  }

  /** `f'"{col}"'`. */
  function Quote(col: string): string
  {
    "\"" + col + "\""
  }

  /** The clause for one cell: the quoted column name, a space, and the
      value, bare for a numeric column and in single quotes, unescaped, for
      a text column. */
  function Clause(col: string, kind: Kind, cell: Cell, fmt: NumberFormat): (r: string)
    ensures StartsWith(r, Quote(col) + " ")
  {
    var value :=
      if kind == Numeric then NumericText(col, NumericValueOf(cell, fmt), fmt)
      else "'" + CellText(cell, fmt) + "'";
    Quote(col) + " " + value
  }

  /** The column name can be read back from a clause: it is the second
      piece when the clause is split at double quotes. */
  lemma ClauseColumn(col: string, kind: Kind, cell: Cell, fmt: NumberFormat)
    requires '\"' !in col
    ensures |Split(Clause(col, kind, cell, fmt), '\"')| >= 2
    ensures Split(Clause(col, kind, cell, fmt), '\"')[1] == col
  {
    var r := Clause(col, kind, cell, fmt);
    var tail := r[|col| + 2..];
    assert r == "" + ['\"'] + (col + ['\"'] + tail);
    SplitConcat("", col + ['\"'] + tail, '\"');
    SplitConcat(col, tail, '\"');
    SplitNoSeparator(col, '\"');
  }

  /** A string cell of a text column appears between the single quotes
      exactly as stored, so it can be read back by dropping the frame. */
  lemma TextClauseVerbatim(col: string, s: string, fmt: NumberFormat)
    ensures Clause(col, Text, Str(s), fmt) == Quote(col) + " '" + s + "'"
    ensures Clause(col, Text, Str(s), fmt)[|col| + 4..|col| + 4 + |s|] == s
  {
  }

  /** A number cell of a text column is quoted as its `str()` form, and a
      blank one as the `str()` of NaN. */
  lemma TextClauseOfNumber(col: string, cell: Cell, fmt: NumberFormat)
    ensures cell.Num? ==> Clause(col, Text, cell, fmt) == Quote(col) + " '" + fmt.show(cell.n) + "'"
    ensures cell.Blank? ==> Clause(col, Text, cell, fmt) == Quote(col) + " '" + fmt.show(NaN) + "'"
  {
  }

  /** A blank cell of a numeric column is NaN, which `float()` accepts: it
      is printed by the column's number format and never as a NULL token. */
  lemma BlankNumericClause(col: string, fmt: NumberFormat)
    ensures Clause(col, Numeric, Blank, fmt)
            == Quote(col) + " " + (if CostSpelling(col) then fmt.fixed4(NaN) else fmt.repr(NaN))
  {
    CostNameSpelling(col);
  }

  /** A number cell of a numeric column keeps its value: it is printed by
      the column's number format. */
  lemma NumberNumericClause(col: string, n: Number, fmt: NumberFormat)
    ensures Clause(col, Numeric, Num(n), fmt)
            == Quote(col) + " " + (if CostSpelling(col) then fmt.fixed4(n) else fmt.repr(n))
  {
    CostNameSpelling(col);
  }

  /** A numeric string cell that does not parse does not stop anything: its
      clause carries the text with `$` and `,` already removed. */
  lemma FallbackClause(col: string, s: string, fmt: NumberFormat)
    requires fmt.parse(StripMoney(s)) == None
    ensures Clause(col, Numeric, Str(s), fmt) == Quote(col) + " " + StripMoney(s)
  {
  }

  /** A column spelled COST in any case gets the four-decimal format for
      every parsed value, whatever its dtype and wherever it stands. */
  lemma CostClauseFourDecimals(t: Table, col: string, cell: Cell, fmt: NumberFormat)
    requires CostSpelling(col)
    requires NumericValueOf(cell, fmt).Parsed?
    ensures Clause(col, KindOf(t, col), cell, fmt) == Quote(col) + " " + fmt.fixed4(NumericValueOf(cell, fmt).n)
  {
    CostNameSpelling(col);
  }

  /** Any other parsed numeric column gets the plain float format. */
  lemma OtherClausePlain(col: string, cell: Cell, fmt: NumberFormat)
    requires !CostSpelling(col)
    requires NumericValueOf(cell, fmt).Parsed?
    ensures Clause(col, Numeric, cell, fmt) == Quote(col) + " " + fmt.repr(NumericValueOf(cell, fmt).n)
  {
    CostNameSpelling(col);
  }

  // ---------------------------------------------------------------------------
  // one row

  /** The row has a cell, and `kinds` a kind, for every required column. */
  predicate Ready(row: Row, required: seq<string>, kinds: map<string, Kind>)
  {
    forall c :: c in required ==> c in row && c in kinds
  }

  /** The loop over the required columns for one row (app.py:41-59): one
      clause per required column, in the order the columns were listed. */
  function RowClauses(row: Row, required: seq<string>, kinds: map<string, Kind>, fmt: NumberFormat): (cs: seq<string>)
    requires Ready(row, required, kinds)
    ensures |cs| == |required|
    decreases |required|
  {
    if |required| == 0 then []
    else
      var c := required[0];
      [Clause(c, kinds[c], row[c], fmt)] + RowClauses(row, required[1..], kinds, fmt)
  }

  /** Clause `j` of a row is the clause of required column `j`. */
  lemma {:induction false} RowClausesAt(row: Row, required: seq<string>, kinds: map<string, Kind>, fmt: NumberFormat)
    requires Ready(row, required, kinds)
    ensures forall j {:trigger RowClauses(row, required, kinds, fmt)[j]} :: 0 <= j < |required| ==>
              RowClauses(row, required, kinds, fmt)[j]
              == Clause(required[j], kinds[required[j]], row[required[j]], fmt)
    decreases |required|
  {
    if |required| > 0 {
      RowClausesAt(row, required[1..], kinds, fmt);
      var cs := RowClauses(row, required, kinds, fmt);
      forall j | 0 <= j < |required|
        ensures cs[j] == Clause(required[j], kinds[required[j]], row[required[j]], fmt)
      {
        if j > 0 {
          assert cs[j] == RowClauses(row, required[1..], kinds, fmt)[j - 1];
        }
      }
    }
  }

  /** Adding a required column adds its clause at the end. */
  lemma {:induction false} RowClausesAppend(row: Row, required: seq<string>, col: string, kinds: map<string, Kind>, fmt: NumberFormat)
    requires Ready(row, required + [col], kinds)
    ensures Ready(row, required, kinds)
    ensures RowClauses(row, required + [col], kinds, fmt)
            == RowClauses(row, required, kinds, fmt) + [Clause(col, kinds[col], row[col], fmt)]
    decreases |required|
  {
    if |required| > 0 {
      assert (required + [col])[1..] == required[1..] + [col];
      RowClausesAppend(row, required[1..], col, kinds, fmt);
    } else {
      assert required + [col] == [col];
    }
  }

  /** app.py:60-65: `WHEN c1 AND ... AND c(n-1) THEN cn` for two clauses or
      more, `WHEN c1` for one. The line starts with the first clause and
      ends with the last; only a line of two clauses or more has ` THEN `
      before the last. */
  function AssembleLine(clauses: seq<string>): (line: string)
    requires |clauses| >= 1
    ensures StartsWith(line, "WHEN " + clauses[0])
    ensures EndsWith(line, clauses[|clauses| - 1])
    ensures |clauses| == 1 ==> line == "WHEN " + clauses[0]
    ensures |clauses| >= 2 ==> EndsWith(line, " THEN " + clauses[|clauses| - 1])
  {
    var n := |clauses|;
    if n >= 2 then
      var whenAnd := Join(clauses[..n - 1], " AND ");
      var last := clauses[n - 1];
      var line := "WHEN " + whenAnd + " THEN " + last;
      JoinStartsWith(clauses[..n - 1], " AND ");
      assert line == "WHEN " + whenAnd + (" THEN " + last);
      assert line[..5 + |clauses[0]|] == ("WHEN " + whenAnd)[..5 + |clauses[0]|];
      assert line[|line| - |" THEN " + last|..] == " THEN " + last;
      line
    else
      "WHEN " + clauses[0]
  }

  /** The line differs from `WHEN ` followed by all clauses joined with
      ` AND ` only in the last separator, which reads ` THEN `: putting
      ` AND ` back in its place gives the flat join. */
  lemma ThenReplacesLastAnd(clauses: seq<string>)
    requires |clauses| >= 2
    ensures var line := AssembleLine(clauses);
            var last := clauses[|clauses| - 1];
            line[..|line| - 6 - |last|] + " AND " + last == "WHEN " + Join(clauses, " AND ")
  {
    var n := |clauses|;
    var last := clauses[n - 1];
    var head := "WHEN " + Join(clauses[..n - 1], " AND ");
    assert clauses == clauses[..n - 1] + [last];
    JoinAppend(clauses[..n - 1], last, " AND ");
    var line := AssembleLine(clauses);
    assert line == head + " THEN " + last;
    assert line[..|line| - 6 - |last|] == head;
  }

  /** The output line of one data row. */
  function RowLine(row: Row, required: seq<string>, kinds: map<string, Kind>, fmt: NumberFormat): (line: string)
    requires |required| >= 1
    requires Ready(row, required, kinds)
  {
    AssembleLine(RowClauses(row, required, kinds, fmt))
  }

  /** Every output line starts with `WHEN ` and the first required column
      in double quotes. */
  lemma RowLineStart(row: Row, required: seq<string>, kinds: map<string, Kind>, fmt: NumberFormat)
    requires |required| >= 1
    requires Ready(row, required, kinds)
    ensures StartsWith(RowLine(row, required, kinds, fmt), "WHEN " + Quote(required[0]) + " ")
  {
    var cs := RowClauses(row, required, kinds, fmt);
    var line := AssembleLine(cs);
    RowClausesAt(row, required, kinds, fmt);
    StartsWithExtend("WHEN ", cs[0], Quote(required[0]) + " ");
    StartsWithTrans(line, "WHEN " + cs[0], "WHEN " + (Quote(required[0]) + " "));
    assert "WHEN " + (Quote(required[0]) + " ") == "WHEN " + Quote(required[0]) + " ";
  }
}
