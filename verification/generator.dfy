/** The whole POST branch of the page handler as one function from the
    typed column list and the uploaded sheet to either the output lines or
    the reason there are none (app.py:15-67), and the same computation
    written with the loops of the source (app.py:30-66).
 */
module Generator {
  import opened Wrappers
  import opened Strings
  import opened Sheet
  import opened Columns
  import opened Clauses

  /** What the page shows: the generated lines, the columns the sheet
      lacks, or the request for a file and a column list. */
  datatype Outcome = Lines(lines: seq<string>) | Missing(names: seq<string>) | NoInput

  /** The `col_types` dictionary (app.py:30-38). */
  function KindMap(required: seq<string>, t: Table): (kinds: map<string, Kind>)
    ensures forall c :: c in kinds <==> c in required
  {
    map c | c in required :: KindOf(t, c)
  }

  /** Every row has a cell, and `kinds` a kind, for every required column. */
  predicate AllReady(rows: seq<Row>, required: seq<string>, kinds: map<string, Kind>)
  {
    forall i :: 0 <= i < |rows| ==> Ready(rows[i], required, kinds)
  }

  /** `[f(x) for x in xs]`. */
  function MapSeq<A, B>(f: A --> B, xs: seq<A>): (ys: seq<B>)
    requires forall i :: 0 <= i < |xs| ==> f.requires(xs[i])
    ensures |ys| == |xs|
    decreases |xs|
  {
    if |xs| == 0 then [] else [f(xs[0])] + MapSeq(f, xs[1..])
  }

  /** Element `i` of the mapped list is the image of element `i`. */
  lemma {:induction false} MapSeqPointwise<A, B>(f: A --> B, xs: seq<A>)
    requires forall i :: 0 <= i < |xs| ==> f.requires(xs[i])
    ensures forall i {:trigger MapSeq(f, xs)[i]} :: 0 <= i < |xs| ==> MapSeq(f, xs)[i] == f(xs[i])
    decreases |xs|
  {
    if |xs| > 0 {
      MapSeqPointwise(f, xs[1..]);
      forall i | 0 <= i < |xs|
        ensures MapSeq(f, xs)[i] == f(xs[i])
      {
        if i > 0 {
          assert MapSeq(f, xs)[i] == MapSeq(f, xs[1..])[i - 1];
        }
      }
    }
  }

  lemma {:induction false} MapSeqConcat<A, B>(f: A --> B, a: seq<A>, b: seq<A>)
    requires forall i :: 0 <= i < |a| ==> f.requires(a[i])
    requires forall i :: 0 <= i < |b| ==> f.requires(b[i])
    ensures forall i :: 0 <= i < |a + b| ==> f.requires((a + b)[i])
    ensures MapSeq(f, a + b) == MapSeq(f, a) + MapSeq(f, b)
    decreases |a|
  {
    if |a| == 0 {
      assert a + b == b;
    } else {
      assert (a + b)[1..] == a[1..] + b;
      MapSeqConcat(f, a[1..], b);
    }
  }

  /** The body of the row loop as a function of the row. */
  function LineOf(required: seq<string>, kinds: map<string, Kind>, fmt: NumberFormat): Row --> string
    requires |required| >= 1
  {
    row requires Ready(row, required, kinds) => RowLine(row, required, kinds, fmt)
  }

  /** The loop over the data rows (app.py:40-66): one line per row, in row
      order. */
  function CompileRows(rows: seq<Row>, required: seq<string>, kinds: map<string, Kind>, fmt: NumberFormat): (lines: seq<string>)
    requires |required| >= 1
    requires AllReady(rows, required, kinds)
    ensures |lines| == |rows|
    ensures forall i {:trigger lines[i]} :: 0 <= i < |rows| ==> lines[i] == RowLine(rows[i], required, kinds, fmt)
  {
    MapSeqPointwise(LineOf(required, kinds, fmt), rows);
    MapSeq(LineOf(required, kinds, fmt), rows)
  }

  /** Every compiled line starts with `WHEN ` and the first required
      column in double quotes. */
  lemma CompileRowsStart(rows: seq<Row>, required: seq<string>, kinds: map<string, Kind>, fmt: NumberFormat)
    requires |required| >= 1
    requires AllReady(rows, required, kinds)
    ensures forall i :: 0 <= i < |rows| ==>
              StartsWith(CompileRows(rows, required, kinds, fmt)[i], "WHEN " + Quote(required[0]) + " ")
  {
    forall i | 0 <= i < |rows|
      ensures StartsWith(CompileRows(rows, required, kinds, fmt)[i], "WHEN " + Quote(required[0]) + " ")
    {
      RowLineStart(rows[i], required, kinds, fmt);
    }
  }

  /** Once no required column is missing, every row of a well-formed sheet
      has a cell, and the kind map a kind, for each of them. */
  lemma ReadyWhenNoneMissing(required: seq<string>, t: Table)
    requires WellFormed(t)
    requires MissingColumns(required, t.columns) == []
    ensures AllReady(t.rows, required, KindMap(required, t))
  {
    NoneMissing(required, t.columns);
    forall i, c | 0 <= i < |t.rows| && c in required
      ensures c in t.rows[i]
    {
      assert t.rows[i] in t.rows;
    }
  }

  /** The handler's POST branch. `upload` is the sheet read from the
      uploaded file, `None` when no file came with the form. */
  function Generate(text: string, upload: Option<Table>, fmt: NumberFormat): (r: Outcome)
    requires upload.Some? ==> WellFormed(upload.value)
    ensures r.NoInput? <==> upload.None? || ParseColumnList(text) == []
    ensures r.Missing? <==>
              upload.Some? && ParseColumnList(text) != []
              && MissingColumns(ParseColumnList(text), upload.value.columns) != []
    ensures r.Missing? ==> r.names == MissingColumns(ParseColumnList(text), upload.value.columns)
    ensures r.Lines? ==> upload.Some? && |r.lines| == |upload.value.rows|
    ensures r.Lines? ==> forall i :: 0 <= i < |r.lines| ==>
              StartsWith(r.lines[i], "WHEN " + Quote(ParseColumnList(text)[0]) + " ")
  {
    var required := ParseColumnList(text);
    if upload.None? || |required| == 0 then NoInput
    else
      var t := upload.value;
      var missing := MissingColumns(required, t.columns);
      if |missing| > 0 then Missing(missing)
      else
        ReadyWhenNoneMissing(required, t);
        CompileRowsStart(t.rows, required, KindMap(required, t), fmt);
        Lines(CompileRows(t.rows, required, KindMap(required, t), fmt))
  }

  /** The lines in full: line `i` is the assembly of one clause per
      required column, in the listed order, each built from row `i`'s cell
      and the column's kind. */
  lemma GenerateLines(text: string, t: Table, fmt: NumberFormat, i: nat, j: nat)
    requires WellFormed(t)
    requires Generate(text, Some(t), fmt).Lines?
    requires i < |t.rows|
    requires j < |ParseColumnList(text)|
    ensures var required := ParseColumnList(text);
            var cs := RowClauses(t.rows[i], required, KindMap(required, t), fmt);
            && Generate(text, Some(t), fmt).lines[i] == AssembleLine(cs)
            && |cs| == |required|
            && cs[j] == Clause(required[j], KindOf(t, required[j]), t.rows[i][required[j]], fmt)
  {
    var required := ParseColumnList(text);
    NoneMissing(required, t.columns);
    assert required[j] in required;
    RowClausesAt(t.rows[i], required, KindMap(required, t), fmt);
  }

  /** Cell contents never stop generation: once a file and a column list
      are given and every listed column exists, there are lines, whatever
      the cells hold, unparseable numbers included. */
  lemma CellsNeverAbort(text: string, t: Table, fmt: NumberFormat)
    requires WellFormed(t)
    requires ParseColumnList(text) != []
    requires forall c :: c in ParseColumnList(text) ==> c in t.columns
    ensures Generate(text, Some(t), fmt).Lines?
  {
    var required := ParseColumnList(text);
    NoneMissing(required, t.columns);
    assert MissingColumns(required, t.columns) == [];
    var r := Generate(text, Some(t), fmt);
    assert !r.NoInput? && !r.Missing?;
  }

  /** A row's line depends on that row alone: the lines of a sheet whose
      rows are those of two sheets one after the other are the two sheets'
      lines one after the other. */
  lemma RowsIndependent(a: seq<Row>, b: seq<Row>, required: seq<string>, kinds: map<string, Kind>, fmt: NumberFormat)
    requires |required| >= 1
    requires AllReady(a, required, kinds) && AllReady(b, required, kinds)
    ensures AllReady(a + b, required, kinds)
    ensures CompileRows(a + b, required, kinds, fmt)
            == CompileRows(a, required, kinds, fmt) + CompileRows(b, required, kinds, fmt)
  {
    MapSeqConcat(LineOf(required, kinds, fmt), a, b);
  }

  // ---------------------------------------------------------------------------
  // the source's loops

  /** The `for col in required_columns` loop that fills `col_types`. */
  method InferKinds(required: seq<string>, t: Table) returns (kinds: map<string, Kind>)
    ensures forall c :: c in kinds <==> c in required
    ensures forall c :: c in kinds ==> kinds[c] == KindOf(t, c)
  {
    kinds := map[];
    var i := 0;
    while i < |required|
      invariant 0 <= i <= |required|
      invariant forall c :: c in kinds <==> c in required[..i]
      invariant forall c :: c in kinds ==> kinds[c] == KindOf(t, c)
    {
      var col := required[i];
      if IsCostName(col) {
        kinds := kinds[col := Numeric];
      } else if col in t.numericColumns {
        kinds := kinds[col := Numeric];
      } else {
        kinds := kinds[col := Text];
      }
      assert required[..i + 1] == required[..i] + [col];
      i := i + 1;
    }
    assert required[..i] == required;
  }

  /** One step of the column loop: the clauses of the first `j` required
      columns and the clause of column `j` are the clauses of the first
      `j + 1`. */
  lemma RowClausesStep(row: Row, required: seq<string>, j: nat, clauses: seq<string>,
                       kinds: map<string, Kind>, fmt: NumberFormat)
    requires Ready(row, required, kinds)
    requires j < |required|
    requires clauses == RowClauses(row, required[..j], kinds, fmt)
    ensures Ready(row, required[..j + 1], kinds)
    ensures required[j] in row && required[j] in kinds
    ensures clauses + [Clause(required[j], kinds[required[j]], row[required[j]], fmt)]
            == RowClauses(row, required[..j + 1], kinds, fmt)
  {
    var col := required[j];
    assert required[..j + 1] == required[..j] + [col];
    RowClausesAppend(row, required[..j], col, kinds, fmt);
  }

  /** The loop over the required columns for one row. */
  method CompileRow(row: Row, required: seq<string>, kinds: map<string, Kind>, fmt: NumberFormat)
    returns (line: string)
    requires |required| >= 1
    requires Ready(row, required, kinds)
    ensures line == RowLine(row, required, kinds, fmt)
  {
    var clauses := [];
    var j := 0;
    while j < |required|
      invariant 0 <= j <= |required|
      invariant Ready(row, required[..j], kinds)
      invariant clauses == RowClauses(row, required[..j], kinds, fmt)
    {
      var col := required[j];
      RowClausesStep(row, required, j, clauses, kinds, fmt);
      clauses := clauses + [Clause(col, kinds[col], row[col], fmt)];
      j := j + 1;
    }
    assert required[..j] == required;
    line := AssembleLine(clauses);
  }

  /** One step of a mapping loop: the images of the first `i` elements
      and the image of element `i` are the images of the first `i + 1`. */
  lemma MapSeqStep<A, B>(f: A --> B, xs: seq<A>, i: nat, ys: seq<B>, y: B)
    requires forall k :: 0 <= k < |xs| ==> f.requires(xs[k])
    requires i < |xs|
    requires ys == MapSeq(f, xs[..i])
    requires y == f(xs[i])
    ensures ys + [y] == MapSeq(f, xs[..i + 1])
  {
    assert xs[..i + 1] == xs[..i] + [xs[i]];
    MapSeqConcat(f, xs[..i], [xs[i]]);
    assert MapSeq(f, [xs[i]]) == [y];
  }

  /** The loop over the data rows. */
  method CompileLines(t: Table, required: seq<string>, kinds: map<string, Kind>, fmt: NumberFormat)
    returns (lines: seq<string>)
    requires |required| >= 1
    requires AllReady(t.rows, required, kinds)
    ensures lines == MapSeq(LineOf(required, kinds, fmt), t.rows)
  {
    var f := LineOf(required, kinds, fmt);
    lines := [];
    var i := 0;
    while i < |t.rows|
      invariant 0 <= i <= |t.rows|
      invariant lines == MapSeq(f, t.rows[..i])
    {
      var line := CompileRow(t.rows[i], required, kinds, fmt);
      MapSeqStep(f, t.rows, i, lines, line);
      lines := lines + [line];
      i := i + 1;
    }
    assert t.rows[..i] == t.rows;
  }

  /** A map with the same keys and values as `KindMap` is `KindMap`. */
  lemma KindMapExact(kinds: map<string, Kind>, required: seq<string>, t: Table)
    requires forall c :: c in kinds <==> c in required
    requires forall c :: c in kinds ==> kinds[c] == KindOf(t, c)
    ensures kinds == KindMap(required, t)
  {
  }

  /** The handler's POST branch step by step, computing what Generate
      describes. */
  method Index(text: string, upload: Option<Table>, fmt: NumberFormat) returns (r: Outcome)
    requires upload.Some? ==> WellFormed(upload.value)
    ensures r == Generate(text, upload, fmt)
  {
    var required := ParseColumnList(text);
    if upload.None? || |required| == 0 {
      return NoInput;
    }
    var t := upload.value;
    var missing := MissingColumns(required, t.columns);
    if |missing| > 0 {
      return Missing(missing);
    }
    ReadyWhenNoneMissing(required, t);
    var kinds := InferKinds(required, t);
    KindMapExact(kinds, required, t);
    var lines := CompileLines(t, required, kinds, fmt);
    r := Lines(lines);
  }
}
