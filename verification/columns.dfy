/** The required-column list typed into the form and the check that the
    sheet has every one of those columns (app.py:16 and app.py:25-27).
 */
module Columns {
  import opened Strings

  /** What can come out of the column list: a non-empty, comma-free name
      with no white space at either end. */
  predicate IsColumnName(s: string)
  {
    s != "" && IsTrimmed(s) && ',' !in s
  }

  /** The list comprehension `[c.strip() for c in pieces if c.strip()]`. */
  function KeepNonBlank(pieces: seq<string>): (r: seq<string>)
    ensures |r| <= |pieces|
    ensures forall i :: 0 <= i < |r| ==> r[i] != "" && IsTrimmed(r[i])
    decreases |pieces|
  {
    if |pieces| == 0 then []
    else
      var t := Trim(pieces[0]);
      var rest := KeepNonBlank(pieces[1..]);
      if t == "" then rest else [t] + rest
  }

  /** Stripping adds no character, so comma-free pieces give comma-free
      entries. */
  lemma {:induction false} KeepNonBlankCommaFree(pieces: seq<string>)
    requires forall j :: 0 <= j < |pieces| ==> ',' !in pieces[j]
    ensures forall i :: 0 <= i < |KeepNonBlank(pieces)| ==> ',' !in KeepNonBlank(pieces)[i]
    decreases |pieces|
  {
    if |pieces| > 0 {
      var t := Trim(pieces[0]);
      var rest := KeepNonBlank(pieces[1..]);
      KeepNonBlankCommaFree(pieces[1..]);
      if ',' in t {
        TrimChars(pieces[0], ',');
      }
      if t != "" {
        var r := [t] + rest;
        assert KeepNonBlank(pieces) == r;
        forall i | 0 <= i < |r|
          ensures ',' !in r[i]
        {
          if i > 0 {
            assert r[i] == rest[i - 1];
          }
        }
      }
    }
  }

  lemma {:induction false} KeepNonBlankConcat(a: seq<string>, b: seq<string>)
    ensures KeepNonBlank(a + b) == KeepNonBlank(a) + KeepNonBlank(b)
    decreases |a|
  {
    if |a| > 0 {
      assert (a + b)[1..] == a[1..] + b;
      KeepNonBlankConcat(a[1..], b);
    } else {
      assert a + b == b;
    }
  }

  /** The required columns typed as one comma-separated string. */
  function ParseColumnList(text: string): (r: seq<string>)
    ensures forall i :: 0 <= i < |r| ==> IsColumnName(r[i])
  {
    KeepNonBlankCommaFree(Split(text, ','));
    KeepNonBlank(Split(text, ','))
  }

  /** A piece without a comma contributes its trimmed self, or nothing when
      it is blank. */
  lemma ParseColumnListPiece(piece: string)
    requires ',' !in piece
    ensures ParseColumnList(piece) == if Trim(piece) == "" then [] else [Trim(piece)]
  {
    SplitNoSeparator(piece, ',');
  }

  /** The list of `a,b` is the list of `a` followed by the list of `b`:
      together with the single-piece case this fixes the result for every
      input, entries kept in input order. */
  lemma ParseColumnListConcat(a: string, b: string)
    ensures ParseColumnList(a + "," + b) == ParseColumnList(a) + ParseColumnList(b)
  {
    SplitConcat(a, b, ',');
    KeepNonBlankConcat(Split(a, ','), Split(b, ','));
  }

  lemma {:induction false} KeepNonBlankNames(names: seq<string>)
    requires forall i :: 0 <= i < |names| ==> IsColumnName(names[i])
    ensures KeepNonBlank(names) == names
    decreases |names|
  {
    if |names| > 0 {
      TrimTrimmed(names[0]);
      KeepNonBlankNames(names[1..]);
      assert [names[0]] + names[1..] == names;
    }
  }

  /** Writing proper column names back as a comma-separated list and
      parsing it gives the same names. */
  lemma ParseColumnListRoundTrip(names: seq<string>)
    requires forall i :: 0 <= i < |names| ==> IsColumnName(names[i])
    ensures ParseColumnList(Join(names, ",")) == names
  {
    if |names| == 0 {
      assert Trim("") == "";
    } else {
      SplitJoin(names, ',');
      KeepNonBlankNames(names);
    }
  }

  /** Parsing a list that was already parsed and joined changes nothing. */
  lemma ParseColumnListIdempotent(text: string)
    ensures ParseColumnList(Join(ParseColumnList(text), ",")) == ParseColumnList(text)
  {
    ParseColumnListRoundTrip(ParseColumnList(text));
  }

  /** `[col for col in required if col not in columns]`: exactly the
      required names absent from the sheet, as often and in the order they
      were asked for. */
  function MissingColumns(required: seq<string>, columns: seq<string>): (r: seq<string>)
    ensures forall c :: c in r <==> c in required && c !in columns
    ensures forall c :: c !in columns ==> multiset(r)[c] == multiset(required)[c]
    ensures Subsequence(r, required)
    decreases |required|
  {
    if |required| == 0 then []
    else
      var rest := MissingColumns(required[1..], columns);
      assert required == [required[0]] + required[1..];
      if required[0] in columns then
        assert Subsequence(rest, required) by { if |rest| > 0 { } }
        rest
      else
        var r := [required[0]] + rest;
        assert r[1..] == rest;
        r
  }

  /** Nothing is missing exactly when every required name is a column. */
  lemma NoneMissing(required: seq<string>, columns: seq<string>)
    ensures MissingColumns(required, columns) == [] <==>
              forall i :: 0 <= i < |required| ==> required[i] in columns
  {
    var m := MissingColumns(required, columns);
    if m != [] {
      assert m[0] in m;
    }
  }
}
