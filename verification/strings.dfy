/** String helpers with the meaning of the Python built-ins the generator
    uses: `str.split(sep)` on a one-character separator, `sep.join(parts)`,
    `str.strip()`, `str.replace(c, '')` and `str.upper()` as far as the
    comparison with "COST" needs it.
 */
module Strings {

  /** `b` contains the elements of `a` in order, possibly with others between. */
  ghost predicate Subsequence<T>(a: seq<T>, b: seq<T>)
    decreases |b|
  {
    if |a| == 0 then true
    else if |b| == 0 then false
    else (a[0] == b[0] && Subsequence(a[1..], b[1..])) || Subsequence(a, b[1..])
  }

  predicate StartsWith(s: string, prefix: string)
  {
    |prefix| <= |s| && s[..|prefix|] == prefix
  }

  predicate EndsWith(s: string, suffix: string)
  {
    |suffix| <= |s| && s[|s| - |suffix|..] == suffix
  }

  lemma StartsWithTrans(s: string, p: string, q: string)
    requires StartsWith(s, p) && StartsWith(p, q)
    ensures StartsWith(s, q)
  {
    assert s[..|q|] == s[..|p|][..|q|];
  }

  lemma StartsWithExtend(x: string, a: string, b: string)
    requires StartsWith(a, b)
    ensures StartsWith(x + a, x + b)
  {
    assert (x + a)[..|x + b|] == x + a[..|b|];
  }

  // ---------------------------------------------------------------------------
  // join and split

  /** Python's `sep.join(parts)`. */
  function Join(parts: seq<string>, sep: string): string
  {
    if |parts| == 0 then ""
    else if |parts| == 1 then parts[0]
    else parts[0] + sep + Join(parts[1..], sep)
  }

  /** Prefixing the first part prefixes the joined string. */
  lemma {:induction false} JoinPrefixHead(pre: string, p: string, ps: seq<string>, sep: string)
    ensures Join([pre + p] + ps, sep) == pre + Join([p] + ps, sep)
  {
    assert ([pre + p] + ps)[1..] == ps;
    assert ([p] + ps)[1..] == ps;
  }

  /** Joining is associative in the other direction too: appending a part
      appends the separator and that part. */
  lemma {:induction false} JoinAppend(ps: seq<string>, p: string, sep: string)
    requires |ps| >= 1
    ensures Join(ps + [p], sep) == Join(ps, sep) + sep + p
    decreases |ps|
  {
    if |ps| == 1 {
      assert ps + [p] == [ps[0], p];
      assert [ps[0], p][1..] == [p];
    } else {
      assert (ps + [p])[1..] == ps[1..] + [p];
      JoinAppend(ps[1..], p, sep);
    }
  }

  /** The joined string starts with the first part. */
  lemma {:induction false} JoinStartsWith(parts: seq<string>, sep: string)
    requires |parts| >= 1
    ensures StartsWith(Join(parts, sep), parts[0])
  {
    if |parts| >= 2 {
      var rest := sep + Join(parts[1..], sep);
      assert Join(parts, sep) == parts[0] + rest;
      assert (parts[0] + rest)[..|parts[0]|] == parts[0];
    }
  }

  /** Python's `s.split(sep)` for a one-character separator: the pieces
      between consecutive separators, always at least one (`"".split(",")`
      is `[""]`). */
  function Split(s: string, sep: char): (r: seq<string>)
    ensures |r| >= 1
    ensures forall i :: 0 <= i < |r| ==> sep !in r[i]
    ensures Join(r, [sep]) == s
    decreases |s|
  {
    if |s| == 0 then [""]
    else
      var rest := Split(s[1..], sep);
      if s[0] == sep then
        assert ([""] + rest)[1..] == rest;
        [""] + rest
      else
        JoinPrefixHead([s[0]], rest[0], rest[1..], [sep]);
        assert [rest[0]] + rest[1..] == rest;
        [[s[0]] + rest[0]] + rest[1..]
  }

  /** Splitting at a separator character splits the two sides independently. */
  lemma {:induction false} SplitConcat(a: string, b: string, sep: char)
    ensures Split(a + [sep] + b, sep) == Split(a, sep) + Split(b, sep)
    decreases |a|
  {
    var s := a + [sep] + b;
    if |a| == 0 {
      assert s[1..] == b;
    } else {
      assert s[1..] == a[1..] + [sep] + b;
      SplitConcat(a[1..], b, sep);
    }
  }

  /** A separator-free string is a single piece. */
  lemma {:induction false} SplitNoSeparator(s: string, sep: char)
    requires sep !in s
    ensures Split(s, sep) == [s]
    decreases |s|
  {
    if |s| > 0 {
      assert sep !in s[1..];
      SplitNoSeparator(s[1..], sep);
      assert [s[0]] + s[1..] == s;
    }
  }

  /** Split inverts Join when no part contains the separator. */
  lemma {:induction false} SplitJoin(parts: seq<string>, sep: char)
    requires |parts| >= 1
    requires forall i :: 0 <= i < |parts| ==> sep !in parts[i]
    ensures Split(Join(parts, [sep]), sep) == parts
    decreases |parts|
  {
    if |parts| == 1 {
      SplitNoSeparator(parts[0], sep);
    } else {
      SplitJoin(parts[1..], sep);
      SplitNoSeparator(parts[0], sep);
      SplitConcat(parts[0], Join(parts[1..], [sep]), sep);
      assert parts[0] + [sep] + Join(parts[1..], [sep]) == Join(parts, [sep]);
      assert [parts[0]] + parts[1..] == parts;
    }
  }

  // ---------------------------------------------------------------------------
  // white space and strip()

  /** Python's `str.isspace()` for one character, by code point: TAB, LF,
      VT, FF, CR, the four information separators, SPACE, NEL, NO-BREAK
      SPACE and the Unicode space and line/paragraph separators. */
  predicate IsSpace(c: char)
  {
    var n := c as int;
    || n == 0x20
    || 0x09 <= n <= 0x0D
    || 0x1C <= n <= 0x1F
    || n == 0x85
    || n == 0xA0
    || n == 0x1680
    || 0x2000 <= n <= 0x200A
    || n == 0x2028
    || n == 0x2029
    || n == 0x202F
    || n == 0x205F
    || n == 0x3000
  }

  predicate AllSpace(s: string)
  {
    forall k :: 0 <= k < |s| ==> IsSpace(s[k])
  }

  /** Neither end is white space: what `strip()` leaves behind. */
  predicate IsTrimmed(s: string)
  {
    |s| == 0 || (!IsSpace(s[0]) && !IsSpace(s[|s| - 1]))
  }

  /** `s` is `r` with white space on either side, `r` starting at `i`. */
  ghost predicate Surrounds(s: string, i: int, r: string)
  {
    && 0 <= i <= |s| - |r|
    && s[i..i + |r|] == r
    && AllSpace(s[..i])
    && AllSpace(s[i + |r|..])
  }

  /** Python's `s.lstrip()`. */
  function TrimStart(s: string): (r: string)
    ensures |r| <= |s|
    ensures s[|s| - |r|..] == r
    ensures AllSpace(s[..|s| - |r|])
    ensures |r| > 0 ==> !IsSpace(r[0])
    decreases |s|
  {
    if |s| == 0 || !IsSpace(s[0]) then s
    else
      var r := TrimStart(s[1..]);
      assert s[..|s| - |r|] == [s[0]] + s[1..][..|s| - 1 - |r|];
      r
  }

  /** Python's `s.rstrip()`. */
  function TrimEnd(s: string): (r: string)
    ensures |r| <= |s|
    ensures s[..|r|] == r
    ensures AllSpace(s[|r|..])
    ensures |r| > 0 ==> !IsSpace(r[|r| - 1])
    decreases |s|
  {
    if |s| == 0 || !IsSpace(s[|s| - 1]) then s
    else
      var init := s[..|s| - 1];
      var r := TrimEnd(init);
      assert s[|r|..] == init[|r|..] + [s[|s| - 1]];
      r
  }

  /** A white-space run, then `r`, then a white-space run, seen as `s`
      losing its leading run to become `t`, which loses its trailing run to
      become `r`. */
  lemma SurroundsByParts(s: string, t: string, r: string)
    requires |t| <= |s| && s[|s| - |t|..] == t && AllSpace(s[..|s| - |t|])
    requires |r| <= |t| && t[..|r|] == r && AllSpace(t[|r|..])
    ensures Surrounds(s, |s| - |t|, r)
  {
    var i := |s| - |t|;
    assert s[i..i + |r|] == t[..|r|];
    assert s[i + |r|..] == t[|r|..];
  }

  /** Python's `s.strip()`: `s` is the result surrounded by white space,
      and the result itself has no white space at either end. */
  function Trim(s: string): (r: string)
    ensures IsTrimmed(r)
    ensures Surrounds(s, |s| - |TrimStart(s)|, r)
  {
    var t := TrimStart(s);
    var r := TrimEnd(t);
    assert |r| > 0 ==> r[0] == t[0];
    SurroundsByParts(s, t, r);
    r
  }

  /** lstrip() removes exactly a leading white-space run. */
  lemma {:induction false} TrimStartUnique(pre: string, rest: string)
    requires AllSpace(pre)
    requires |rest| > 0 ==> !IsSpace(rest[0])
    ensures TrimStart(pre + rest) == rest
    decreases |pre|
  {
    if |pre| > 0 {
      assert (pre + rest)[1..] == pre[1..] + rest;
      TrimStartUnique(pre[1..], rest);
    } else {
      assert pre + rest == rest;
    }
  }

  /** rstrip() removes exactly a trailing white-space run. */
  lemma {:induction false} TrimEndUnique(rest: string, post: string)
    requires AllSpace(post)
    requires |rest| > 0 ==> !IsSpace(rest[|rest| - 1])
    ensures TrimEnd(rest + post) == rest
    decreases |post|
  {
    if |post| > 0 {
      var p := post[..|post| - 1];
      assert (rest + post)[..|rest + post| - 1] == rest + p;
      TrimEndUnique(rest, p);
    } else {
      assert rest + post == rest;
    }
  }

  /** Trim is determined by its contract: whatever trimmed core sits
      between two white-space runs is what strip() returns. */
  lemma TrimUnique(pre: string, core: string, post: string)
    requires AllSpace(pre) && AllSpace(post) && IsTrimmed(core)
    ensures Trim(pre + core + post) == core
  {
    assert pre + core + post == pre + (core + post);
    if |core| > 0 {
      assert (core + post)[0] == core[0];
      TrimStartUnique(pre, core + post);
    } else {
      assert AllSpace(core + post);
      assert core + post == post;
      TrimStartUnique(pre + post, "");
      assert pre + post + "" == pre + core + post;
    }
    TrimEndUnique(core, post);
  }

  /** strip() is idempotent. */
  lemma TrimTrimmed(s: string)
    requires IsTrimmed(s)
    ensures Trim(s) == s
  {
    assert "" + s + "" == s;
    TrimUnique("", s, "");
  }

  /** Every character of the stripped string comes from the original. */
  lemma TrimChars(s: string, c: char)
    requires c in Trim(s)
    ensures c in s
  {
    var r := Trim(s);
    var k :| 0 <= k < |r| && r[k] == c;
    var i := |s| - |TrimStart(s)|;
    assert s[i..i + |r|][k] == s[i + k];
  }

  // ---------------------------------------------------------------------------
  // replace(c, '')

  /** `s` with every character of `drop` deleted; for a one-character set
      this is Python's `s.replace(c, '')`. */
  function Without(s: string, drop: set<char>): (r: string)
    ensures forall c :: c in drop ==> c !in r
    decreases |s|
  {
    if |s| == 0 then ""
    else
      var rest := Without(s[1..], drop);
      if s[0] in drop then rest else [s[0]] + rest
  }

  /** What deleting keeps: every other character, in order and as often as
      it occurs. */
  lemma {:induction false} WithoutKeeps(s: string, drop: set<char>)
    ensures Subsequence(Without(s, drop), s)
    ensures forall d :: d !in drop ==> multiset(Without(s, drop))[d] == multiset(s)[d]
    decreases |s|
  {
    if |s| > 0 {
      WithoutKeeps(s[1..], drop);
      var rest := Without(s[1..], drop);
      assert s == [s[0]] + s[1..];
      if s[0] in drop {
        assert Subsequence(rest, s) by { if |rest| > 0 { } }
      } else {
        var r := [s[0]] + rest;
        assert r[1..] == rest;
      }
    }
  }

  /** Deleting one set of characters and then another deletes both at once. */
  lemma {:induction false} WithoutTwice(s: string, a: set<char>, b: set<char>)
    ensures Without(Without(s, a), b) == Without(s, a + b)
    decreases |s|
  {
    if |s| > 0 {
      WithoutTwice(s[1..], a, b);
      if s[0] !in a {
        var r := Without(s, a);
        assert r[0] == s[0] && r[1..] == Without(s[1..], a);
      }
    }
  }

  /** A string with none of the characters is left as it is. */
  lemma {:induction false} WithoutNothing(s: string, drop: set<char>)
    requires forall k :: 0 <= k < |s| ==> s[k] !in drop
    ensures Without(s, drop) == s
    decreases |s|
  {
    if |s| > 0 {
      WithoutNothing(s[1..], drop);
      assert [s[0]] + s[1..] == s;
    }
  }

  // ---------------------------------------------------------------------------
  // upper()

  /** The upper case of one character as `str.upper()` spells it, for the
      characters whose upper case is written with Latin capital letters:
      ASCII `a`-`z`, LATIN SMALL LETTER LONG S (U+017F, upper "S"), the
      ligatures U+FB05 and U+FB06 (upper "ST"), sharp s (U+00DF, "SS") and
      dotless i (U+0131, "I"). Every other character is kept as it is. That
      is not Python's upper case in general (the ligatures U+FB00-U+FB04
      become FF, FI, FL, FFI and FFL, for one), but no other character has
      an upper case spelled only with C, O, S and T, so the comparison with
      "COST" comes out the same. */
  function UpperChar(c: char): (r: string)
    ensures |r| >= 1
  {
    if 'a' <= c <= 'z' then [(c as int - 32) as char]
    else if c == '\U{017F}' then "S"
    else if c == '\U{FB05}' || c == '\U{FB06}' then "ST"
    else if c == '\U{00DF}' then "SS"
    else if c == '\U{0131}' then "I"
    else [c]
  }

  function Upper(s: string): string
  {
    if |s| == 0 then "" else UpperChar(s[0]) + Upper(s[1..])
  }
}
