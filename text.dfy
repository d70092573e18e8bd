/** The string operations of Python's `str` that the encoder and the
    download helper rely on, on `seq<char>`. Whitespace and case are ASCII
    only: `Whitespace` is the ASCII part of `str.isspace`, and `Lower` folds
    'A'..'Z' only. */
module Text {
  import opened Common

  const Whitespace: set<char> :=
    {' ', '\t', '\n', '\r', '\U{0B}', '\U{0C}', '\U{1C}', '\U{1D}', '\U{1E}', '\U{1F}'}

  predicate IsDigit(c: char) { '0' <= c <= '9' }

  predicate AllDigits(s: string) { forall i :: 0 <= i < |s| ==> IsDigit(s[i]) }

  predicate NoneIn(s: string, cs: set<char>) { forall i :: 0 <= i < |s| ==> s[i] !in cs }

  predicate StartsWith(s: string, prefix: string) {
    |prefix| <= |s| && s[..|prefix|] == prefix
  }

  // ---------------------------------------------------------------------
  // strip / lstrip / rstrip
  // ---------------------------------------------------------------------

  /** `s.lstrip(cs)`: the longest suffix of `s` that does not start with a character of `cs`. */
  function TrimStart(s: string, cs: set<char>): (t: string)
    ensures |t| <= |s| && t == s[|s| - |t|..]
    ensures t == [] || t[0] !in cs
    ensures forall i :: 0 <= i < |s| - |t| ==> s[i] in cs
  {
    if s != [] && s[0] in cs then
      var t := TrimStart(s[1..], cs);
      assert s[1..][|s| - 1 - |t|..] == s[|s| - |t|..];
      assert forall i :: 1 <= i < |s| - |t| ==> s[i] == s[1..][i - 1];
      t
    else s
  }

  /** `s.rstrip(cs)`: the longest prefix of `s` that does not end with a character of `cs`. */
  function TrimEnd(s: string, cs: set<char>): (t: string)
    ensures |t| <= |s| && t == s[..|t|]
    ensures t == [] || t[|t| - 1] !in cs
    ensures forall i :: |t| <= i < |s| ==> s[i] in cs
  {
    if s != [] && s[|s| - 1] in cs then TrimEnd(s[..|s| - 1], cs) else s
  }

  /** `s.strip()`. */
  function Strip(s: string): string {
    TrimEnd(TrimStart(s, Whitespace), Whitespace)
  }

  lemma StripNoSpaceEnds(s: string)
    requires s != [] && s[0] !in Whitespace && s[|s| - 1] !in Whitespace
    ensures Strip(s) == s
  {
  }

  // ---------------------------------------------------------------------
  // ASCII case folding
  // ---------------------------------------------------------------------

  function LowerChar(c: char): char {
    if 'A' <= c <= 'Z' then (c as int + 32) as char else c
  }

  function Lower(s: string): (r: string)
    ensures |r| == |s|
    ensures forall i :: 0 <= i < |s| ==> r[i] == LowerChar(s[i])
  {
    seq(|s|, i requires 0 <= i < |s| => LowerChar(s[i]))
  }

  predicate IsLowerCase(s: string) { forall i :: 0 <= i < |s| ==> !('A' <= s[i] <= 'Z') }

  /** Folding leaves no upper-case letter, and a string without one is its own fold. */
  lemma LowerFacts(s: string)
    ensures IsLowerCase(Lower(s))
    ensures IsLowerCase(s) ==> Lower(s) == s
  {
  }

  // ---------------------------------------------------------------------
  // split(sep) and join
  // ---------------------------------------------------------------------

  /** `s.split(sep)` for a one-character separator: one part more than
      there are separators, empty parts kept. */
  function Split(s: string, sep: char): (parts: seq<string>)
    ensures |parts| >= 1
    decreases |s|
  {
    if s == [] then [""]
    else
      var rest := Split(s[1..], sep);
      if s[0] == sep then [""] + rest else [[s[0]] + rest[0]] + rest[1..]
  }

  /** `sep.join(parts)`. */
  function Join(parts: seq<string>, sep: string): string {
    if parts == [] then ""
    else if |parts| == 1 then parts[0]
    else parts[0] + sep + Join(parts[1..], sep)
  }

  lemma {:induction false} SplitWithoutSep(s: string, sep: char)
    requires sep !in s
    ensures Split(s, sep) == [s]
    decreases |s|
  {
    if s != [] {
      SplitWithoutSep(s[1..], sep);
      assert [s[0]] + s[1..] == s;
    }
  }

  lemma {:induction false} SplitAtFirstSep(a: string, b: string, sep: char)
    requires sep !in a
    ensures Split(a + [sep] + b, sep) == [a] + Split(b, sep)
    decreases |a|
  {
    if a == [] {
      assert a + [sep] + b == [sep] + b;
      assert ([sep] + b)[1..] == b;
    } else {
      var s := a + [sep] + b;
      assert s[1..] == a[1..] + [sep] + b;
      SplitAtFirstSep(a[1..], b, sep);
      assert [a[0]] + a[1..] == a;
    }
  }

  /** Splitting a join on a separator that no part contains gives the parts back. */
  lemma {:induction false} SplitJoin(parts: seq<string>, sep: char)
    requires |parts| >= 1
    requires forall i :: 0 <= i < |parts| ==> sep !in parts[i]
    ensures Split(Join(parts, [sep]), sep) == parts
    decreases |parts|
  {
    if |parts| == 1 {
      SplitWithoutSep(parts[0], sep);
    } else {
      SplitJoin(parts[1..], sep);
      SplitAtFirstSep(parts[0], Join(parts[1..], [sep]), sep);
      assert [parts[0]] + parts[1..] == parts;
    }
  }

  // ---------------------------------------------------------------------
  // str(int) and int(str)
  // ---------------------------------------------------------------------

  function DigitChar(d: nat): char
    requires d < 10
  {
    ('0' as int + d) as char
  }

  function NatToString(n: nat): (s: string)
    ensures |s| >= 1 && AllDigits(s)
  {
    if n < 10 then [DigitChar(n)] else NatToString(n / 10) + [DigitChar(n % 10)]
  }

  /** `str(n)` for an int. */
  function IntToString(n: int): (s: string)
    ensures s != [] && s[0] !in Whitespace && s[|s| - 1] !in Whitespace
    ensures forall i :: 0 <= i < |s| ==> IsDigit(s[i]) || (i == 0 && s[i] == '-')
  {
    if n < 0 then "-" + NatToString(-n) else NatToString(n)
  }

  /** `str(n)` holds only digits and a minus sign. */
  lemma IntStringLacks(n: int, c: char)
    requires c != '-' && !IsDigit(c)
    ensures c !in IntToString(n)
  {
  }

  function DigitsValue(s: string): nat
    requires AllDigits(s)
  {
    if s == [] then 0 else DigitsValue(s[..|s| - 1]) * 10 + (s[|s| - 1] as int - '0' as int)
  }

  /** `int(s)` for a base-10 string: surrounding whitespace, an optional
      sign, then one or more ASCII digits. */
  function ParseInt(s: string): Option<int> {
    ParseSigned(Strip(s))
  }

  /** An optional sign, then one or more ASCII digits. */
  function ParseSigned(t: string): Option<int> {
    if |t| >= 1 && (t[0] == '-' || t[0] == '+') then
      if |t| >= 2 && AllDigits(t[1..]) then
        Some(if t[0] == '-' then -(DigitsValue(t[1..]) as int) else DigitsValue(t[1..]))
      else None
    else if |t| >= 1 && AllDigits(t) then Some(DigitsValue(t))
    else None
  }

  lemma {:induction false} DigitsOfNat(n: nat)
    ensures DigitsValue(NatToString(n)) == n
  {
    if n >= 10 {
      DigitsOfNat(n / 10);
      var s := NatToString(n);
      assert s[..|s| - 1] == NatToString(n / 10);
    }
  }

  /** A run of digits parses to its value. */
  lemma ParseIntOfDigits(t: string)
    requires |t| >= 1 && AllDigits(t)
    ensures ParseInt(t) == Some(DigitsValue(t))
  {
    assert IsDigit(t[0]) && IsDigit(t[|t| - 1]);
    StripNoSpaceEnds(t);
    assert ParseSigned(t) == Some(DigitsValue(t));
  }

  /** A minus sign before a run of digits parses to the negated value. */
  lemma ParseIntOfNegated(t: string)
    requires |t| >= 2 && t[0] == '-' && AllDigits(t[1..])
    ensures ParseInt(t) == Some(-(DigitsValue(t[1..]) as int))
  {
    assert IsDigit(t[1..][|t| - 2]);
    StripNoSpaceEnds(t);
  }

  lemma ParseNegativeString(n: int)
    requires n < 0
    ensures ParseInt(IntToString(n)) == Some(n)
  {
    var d := NatToString(-n);
    var s := "-" + d;
    assert s == IntToString(n);
    assert s[1..] == d;
    ParseIntOfNegated(s);
    DigitsOfNat(-n);
    assert DigitsValue(s[1..]) == -n;
    assert ParseInt(s) == Some(n);
  }

  lemma ParseNaturalString(n: nat)
    ensures ParseInt(IntToString(n)) == Some(n)
  {
    DigitsOfNat(n);
    ParseIntOfDigits(NatToString(n));
  }

  /** `int(str(n)) == n`. */
  lemma ParseIntToString(n: int)
    ensures ParseInt(IntToString(n)) == Some(n)
  {
    if n < 0 {
      ParseNegativeString(n);
    } else {
      ParseNaturalString(n);
    }
  }

  // ---------------------------------------------------------------------
  // split() without arguments
  // ---------------------------------------------------------------------

  /** Length of the leading run of non-whitespace characters. */
  function TokenLength(t: string): (k: nat)
    ensures k <= |t|
    ensures NoneIn(t[..k], Whitespace)
    ensures k == |t| || t[k] in Whitespace
  {
    if t == [] || t[0] in Whitespace then 0 else 1 + TokenLength(t[1..])
  }

  /** `s.split()`: the maximal runs of non-whitespace characters. */
  function Words(s: string): (ws: seq<string>)
    ensures forall i :: 0 <= i < |ws| ==> ws[i] != [] && NoneIn(ws[i], Whitespace)
    decreases |s|
  {
    if s == [] then []
    else if s[0] in Whitespace then Words(s[1..])
    else
      var k := TokenLength(s);
      [s[..k]] + Words(s[k..])
  }

  /** A string of whitespace only has no words. */
  lemma {:induction false} WordsOfBlank(s: string)
    requires forall i :: 0 <= i < |s| ==> s[i] in Whitespace
    ensures Words(s) == []
    decreases |s|
  {
    if s != [] {
      assert s[0] in Whitespace;
      WordsOfBlank(s[1..]);
    }
  }

  function Concat(ws: seq<string>): string {
    if ws == [] then "" else ws[0] + Concat(ws[1..])
  }

  /** The characters of `s` that are not whitespace, in order. */
  function NonSpace(s: string): string {
    if s == [] then "" else (if s[0] in Whitespace then "" else [s[0]]) + NonSpace(s[1..])
  }

  lemma {:induction false} NonSpaceAppend(a: string, b: string)
    ensures NonSpace(a + b) == NonSpace(a) + NonSpace(b)
  {
    if a != [] {
      var head := if a[0] in Whitespace then "" else [a[0]];
      assert (a + b)[0] == a[0] && (a + b)[1..] == a[1..] + b;
      NonSpaceAppend(a[1..], b);
      assert NonSpace(a + b) == head + (NonSpace(a[1..]) + NonSpace(b));
      assert NonSpace(a) == head + NonSpace(a[1..]);
    } else {
      assert a + b == b;
    }
  }

  lemma {:induction false} NonSpaceOfToken(a: string)
    requires NoneIn(a, Whitespace)
    ensures NonSpace(a) == a
  {
    if a != [] { NonSpaceOfToken(a[1..]); }
  }

  lemma {:induction false} NonSpaceOfBlank(a: string)
    requires forall i :: 0 <= i < |a| ==> a[i] in Whitespace
    ensures NonSpace(a) == ""
  {
    if a != [] { NonSpaceOfBlank(a[1..]); }
  }

  /** The words of `s`, put back together, are exactly its non-whitespace characters. */
  lemma {:induction false} WordsCoverText(s: string)
    ensures Concat(Words(s)) == NonSpace(s)
    decreases |s|
  {
    if s != [] {
      if s[0] in Whitespace {
        WordsCoverText(s[1..]);
      } else {
        var k := TokenLength(s);
        assert Concat(Words(s)) == s[..k] + Concat(Words(s[k..]));
        assert s == s[..k] + s[k..];
        NonSpaceAppend(s[..k], s[k..]);
        NonSpaceOfToken(s[..k]);
        WordsCoverText(s[k..]);
      }
    }
  }

  // ---------------------------------------------------------------------
  // re.sub(re.escape(pat), rep, s, flags=re.IGNORECASE)
  // ---------------------------------------------------------------------

  predicate MatchesAtCI(s: string, i: nat, pat: string) {
    i + |pat| <= |s| && Lower(s[i..i + |pat|]) == Lower(pat)
  }

  predicate ContainsCI(s: string, pat: string) {
    exists i: nat | i <= |s| :: MatchesAtCI(s, i, pat)
  }

  /** Case-insensitive replacement of a literal: scan left to right, replace
      each match and resume after it, so matches never overlap. */
  function ReplaceCI(s: string, pat: string, rep: string): string
    requires |pat| > 0
    decreases |s|
  {
    if |s| < |pat| then s
    else if Lower(s[..|pat|]) == Lower(pat) then rep + ReplaceCI(s[|pat|..], pat, rep)
    else [s[0]] + ReplaceCI(s[1..], pat, rep)
  }

  /** A string with no case-insensitive occurrence of the pattern is left as it is. */
  lemma {:induction false} ReplaceWithoutMatch(s: string, pat: string, rep: string)
    requires |pat| > 0 && !ContainsCI(s, pat)
    ensures ReplaceCI(s, pat, rep) == s
    decreases |s|
  {
    if |s| >= |pat| {
      assert !MatchesAtCI(s, 0, pat);
      assert s[0..|pat|] == s[..|pat|];
      forall i: nat | MatchesAtCI(s[1..], i, pat) ensures false {
        assert s[1..][i..i + |pat|] == s[i + 1..i + 1 + |pat|];
        assert MatchesAtCI(s, i + 1, pat);
      }
      ReplaceWithoutMatch(s[1..], pat, rep);
      assert [s[0]] + s[1..] == s;
    }
  }

  /** A match at the front is replaced and the scan resumes after it. */
  lemma ReplaceAtFront(s: string, pat: string, rep: string)
    requires |pat| > 0 && MatchesAtCI(s, 0, pat)
    ensures ReplaceCI(s, pat, rep) == rep + ReplaceCI(s[|pat|..], pat, rep)
  {
    assert s[0..|pat|] == s[..|pat|];
  }

  /** No match at the front: the first character is kept and the scan
      goes on with the rest. */
  lemma ReplaceSkipsFirst(s: string, pat: string, rep: string)
    requires |pat| > 0 && |pat| <= |s| && !MatchesAtCI(s, 0, pat)
    ensures ReplaceCI(s, pat, rep) == [s[0]] + ReplaceCI(s[1..], pat, rep)
  {
    assert s[0..|pat|] == s[..|pat|];
  }

  /** Putting the first character back in front of a result on `s[1..]`. */
  lemma PrependFirst(s: string, i: nat, rep: string, rest: string)
    requires 0 < i <= |s|
    ensures [s[0]] + (s[1..][..i - 1] + rep + rest) == s[..i] + rep + rest
  {
    assert s[1..][..i - 1] == s[1..i];
    assert s[..i] == [s[0]] + s[1..i];
  }

  /** A first match at position i > 0 of `s` is a first match at i - 1 of `s[1..]`. */
  lemma FirstMatchShifts(s: string, pat: string, i: nat)
    requires 0 < i && MatchesAtCI(s, i, pat)
    requires forall j: nat :: j < i ==> !MatchesAtCI(s, j, pat)
    ensures MatchesAtCI(s[1..], i - 1, pat)
    ensures forall j: nat :: j < i - 1 ==> !MatchesAtCI(s[1..], j, pat)
  {
    assert s[1..][i - 1..i - 1 + |pat|] == s[i..i + |pat|];
    forall j: nat | j < i - 1 ensures !MatchesAtCI(s[1..], j, pat) {
      assert !MatchesAtCI(s, j + 1, pat);
      if j + |pat| <= |s| - 1 {
        assert s[1..][j..j + |pat|] == s[j + 1..j + 1 + |pat|];
      }
    }
  }

  /** The first case-insensitive occurrence of the pattern is replaced, the
      text before it is kept, and the scan resumes right after it. */
  lemma {:induction false} ReplaceFirstMatch(s: string, pat: string, rep: string, i: nat)
    requires |pat| > 0 && MatchesAtCI(s, i, pat)
    requires forall j: nat :: j < i ==> !MatchesAtCI(s, j, pat)
    ensures ReplaceCI(s, pat, rep) == s[..i] + rep + ReplaceCI(s[i + |pat|..], pat, rep)
    decreases i
  {
    if i == 0 {
      ReplaceAtFront(s, pat, rep);
      assert s[..0] + rep == rep;
    } else {
      var rest := ReplaceCI(s[i + |pat|..], pat, rep);
      assert ReplaceCI(s[1..], pat, rep) == s[1..][..i - 1] + rep + rest by {
        FirstMatchShifts(s, pat, i);
        ReplaceFirstMatch(s[1..], pat, rep, i - 1);
        assert s[1..][i - 1 + |pat|..] == s[i + |pat|..];
      }
      ReplaceSkipsFirst(s, pat, rep);
      PrependFirst(s, i, rep, rest);
    }
  }

  /** A pattern with a character that `s` lacks, in either case, does not occur in `s`. */
  lemma AbsentChar(s: string, pat: string, j: nat)
    requires j < |pat|
    requires forall k :: 0 <= k < |s| ==> LowerChar(s[k]) != LowerChar(pat[j])
    ensures !ContainsCI(s, pat)
  {
    forall i: nat | i <= |s| ensures !MatchesAtCI(s, i, pat) {
      if i + |pat| <= |s| {
        assert Lower(s[i..i + |pat|])[j] != Lower(pat)[j];
      }
    }
  }
}
