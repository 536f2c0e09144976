/** The spreadsheet as the generator sees it once the workbook has been
    read: an ordered list of column names, the columns whose dtype the
    reader made numeric, and the data rows, each mapping a column name to
    its cell. Also the per-column kind (app.py:30-38).
 */
module Sheet {
  import opened Strings

  /** A floating-point cell value. Only its identity matters here: digits
      are produced by the number formats the generator is given. There is
      no negative zero: Python's `-0.0` prints with a minus sign, and a
      parser that returns `Finite(0.0)` for it loses that sign. */
  datatype Number = Finite(value: real) | NaN | Infinity(negative: bool)

  /** A cell as the reader delivers it: a number, a string, or an empty
      cell (pandas NaN). */
  datatype Cell = Num(n: Number) | Str(s: string) | Blank

  type Row = map<string, Cell>

  datatype Table = Table(columns: seq<string>, numericColumns: set<string>, rows: seq<Row>)

  /** Every row has a cell for every column, as a data frame does. */
  predicate WellFormed(t: Table)
  {
    forall r, c :: r in t.rows && c in t.columns ==> c in r
  }

  datatype Kind = Numeric | Text

  /** `name.upper() == "COST"`. */
  predicate IsCostName(name: string)
  {
    Upper(name) == "COST"
  }

  /** The spellings whose upper case is "COST": each of c, o, s, t in
      either case, where s may also be the long s (U+017F), or c and o
      followed by one of the ligatures U+FB05 / U+FB06 for "st". */
  predicate CostSpelling(name: string)
  {
    && |name| >= 3
    && name[0] in "cC"
    && name[1] in "oO"
    && (|| (|name| == 4 && name[2] in "sS\U{017F}" && name[3] in "tT")
        || (|name| == 3 && name[2] in "\U{FB05}\U{FB06}"))
  }

  lemma UpperLength(s: string)
    ensures |Upper(s)| >= |s|
  {
  }

  /** The upper case of a non-empty name is that of its first character
      followed by that of the rest. */
  lemma UpperPeel(s: string, u: string)
    requires Upper(s) == u && u != ""
    ensures |s| >= 1 && u == UpperChar(s[0]) + Upper(s[1..])
  {
  }

  lemma {:induction false} UpperCons(s: string)
    requires |s| > 0
    ensures Upper(s) == UpperChar(s[0]) + Upper(s[1..])
  {
  }

  lemma UpperEmpty(s: string)
    requires Upper(s) == ""
    ensures s == ""
  {
    UpperLength(s);
  }

  // The characters whose upper case starts each of "COST", "OST", "ST", "T".

  lemma UpperCharC(c: char, rest: string)
    requires UpperChar(c) + rest == "COST"
    ensures c in "cC" && rest == "OST"
  {
    var u := UpperChar(c);
    assert (u + rest)[0] == u[0] == 'C';
    assert rest == (u + rest)[1..];
  }

  lemma UpperCharO(c: char, rest: string)
    requires UpperChar(c) + rest == "OST"
    ensures c in "oO" && rest == "ST"
  {
    var u := UpperChar(c);
    assert (u + rest)[0] == u[0] == 'O';
    assert rest == (u + rest)[1..];
  }

  lemma UpperCharS(c: char, rest: string)
    requires UpperChar(c) + rest == "ST"
    ensures (c in "sS\U{017F}" && rest == "T") || (c in "\U{FB05}\U{FB06}" && rest == "")
  {
    var u := UpperChar(c);
    assert (u + rest)[0] == u[0] == 'S';
    if |u| == 1 {
      assert rest == (u + rest)[1..];
    } else {
      assert (u + rest)[1] == u[1] == 'T';
      assert rest == (u + rest)[2..];
    }
  }

  lemma UpperCharT(c: char, rest: string)
    requires UpperChar(c) + rest == "T"
    ensures c in "tT" && rest == ""
  {
    var u := UpperChar(c);
    assert (u + rest)[0] == u[0] == 'T';
    assert rest == (u + rest)[1..];
  }

  /** The upper-case test for "COST" accepts exactly the spellings above. */
  lemma {:induction false} CostNameSpelling(name: string)
    ensures IsCostName(name) <==> CostSpelling(name)
  {
    if IsCostName(name) {
      UpperPeel(name, "COST");
      UpperCharC(name[0], Upper(name[1..]));
      var n1 := name[1..];
      UpperPeel(n1, "OST");
      UpperCharO(n1[0], Upper(n1[1..]));
      var n2 := n1[1..];
      UpperPeel(n2, "ST");
      UpperCharS(n2[0], Upper(n2[1..]));
      var n3 := n2[1..];
      if Upper(n3) == "T" {
        UpperPeel(n3, "T");
        UpperCharT(n3[0], Upper(n3[1..]));
        UpperEmpty(n3[1..]);
      } else {
        UpperEmpty(n3);
      }
    }
    if CostSpelling(name) {
      UpperCons(name);
      UpperCons(name[1..]);
      UpperCons(name[2..]);
      if |name| == 4 {
        UpperCons(name[3..]);
        assert name[3..][1..] == "";
      } else {
        assert name[2..][1..] == "";
      }
    }
  }

  /** The kind recorded for a required column: a column named "COST" in any
      case is numeric whatever its dtype, any other column is numeric
      exactly when its dtype is. */
  function KindOf(t: Table, col: string): Kind
  {
    if IsCostName(col) then Numeric
    else if col in t.numericColumns then Numeric
    else Text
  }

  /** The kind in terms of the spelling of the name and the dtype alone. */
  lemma KindBySpelling(t: Table, col: string)
    ensures KindOf(t, col) == Numeric <==> CostSpelling(col) || col in t.numericColumns
    ensures CostSpelling(col) ==> KindOf(t, col) == Numeric
  {
    CostNameSpelling(col);
  }
}
