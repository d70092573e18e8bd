/** The Windows-to-Linux path translation of the download helper: path
    normalisation, the translation through an insertion-ordered table of
    prefixes, and the reading of that table from the mapping file. */
module PathMapping {
  import opened Common
  import opened Text
  import opened Paths

  const Separators: set<char> := {'\\', '/'}

  /** `s.replace(a, b)` for single characters. */
  function ReplaceChar(s: string, a: char, b: char): (r: string)
    ensures |r| == |s|
    ensures forall i :: 0 <= i < |s| ==> r[i] == (if s[i] == a then b else s[i])
  {
    seq(|s|, i requires 0 <= i < |s| => if s[i] == a then b else s[i])
  }

  // ---------------------------------------------------------------------
  // normalize_windows_path
  // ---------------------------------------------------------------------

  /** Lines 128-129: '/' becomes '\', trailing separators go, and the
      result is lower-cased. */
  function NormalizeWindowsPath(path: string): (r: string)
    ensures '/' !in r
    ensures r == [] || r[|r| - 1] !in Separators
    ensures IsLowerCase(r)
  {
    var r := Lower(TrimEnd(ReplaceChar(path, '/', '\\'), Separators));
    assert forall i :: 0 <= i < |r| ==> r[i] != '/';
    LowerFacts(TrimEnd(ReplaceChar(path, '/', '\\'), Separators));
    r
  }

  /** The normal form character by character: a prefix of the path with
      each '/' read as '\' and ASCII letters folded, followed in the
      original only by separators. */
  lemma NormalizeCharacters(path: string)
    ensures var r := NormalizeWindowsPath(path);
      && |r| <= |path|
      && (forall i :: 0 <= i < |r| ==> r[i] == LowerChar(if path[i] == '/' then '\\' else path[i]))
      && (forall i :: |r| <= i < |path| ==> path[i] in Separators)
  {
    var s := ReplaceChar(path, '/', '\\');
    var t := TrimEnd(s, Separators);
    forall i | |t| <= i < |path| ensures path[i] in Separators {
      assert s[i] in Separators;
    }
  }

  /** Normalising twice is normalising once. */
  lemma NormalizeIdempotent(path: string)
    ensures NormalizeWindowsPath(NormalizeWindowsPath(path)) == NormalizeWindowsPath(path)
  {
    var r := NormalizeWindowsPath(path);
    assert ReplaceChar(r, '/', '\\') == r;
    assert TrimEnd(r, Separators) == r;
    LowerFacts(r);
  }

  // ---------------------------------------------------------------------
  // translate_path
  // ---------------------------------------------------------------------

  /** Line 141: the normalised path starts with the normalised prefix, with
      no check that the match ends at a folder boundary. */
  predicate PrefixMatch(path: string, winPrefix: string) {
    StartsWith(NormalizeWindowsPath(path), NormalizeWindowsPath(winPrefix))
  }

  /** A prefix match that ends where a folder name ends: the normalised path
      is the prefix itself or goes on with a separator. */
  predicate FolderMatch(path: string, winPrefix: string) {
    var p, q := NormalizeWindowsPath(path), NormalizeWindowsPath(winPrefix);
    StartsWith(p, q) && (|p| == |q| || p[|q|] == '\\')
  }

  /** The position of the first mapping from `from` on whose prefix matches. */
  function FirstMatchFrom(mappings: seq<(string, string)>, path: string, matches: (string, string) -> bool,
                          from: nat): (i: Option<nat>)
    requires from <= |mappings|
    ensures i.None? ==> forall k :: from <= k < |mappings| ==> !matches(path, mappings[k].0)
    ensures i.Some? ==> from <= i.value < |mappings| && matches(path, mappings[i.value].0)
    ensures i.Some? ==> forall k :: from <= k < i.value ==> !matches(path, mappings[k].0)
    decreases |mappings| - from
  {
    if from == |mappings| then None
    else if matches(path, mappings[from].0) then Some(from)
    else FirstMatchFrom(mappings, path, matches, from + 1)
  }

  /** Line 142: what follows the first `|winPrefix|` characters of the
      original path (nothing when the prefix is longer), without leading
      separators. */
  function RelativePart(path: string, winPrefix: string): (r: string)
    ensures var tail := if |winPrefix| <= |path| then path[|winPrefix|..] else "";
      && |r| <= |tail| && r == tail[|tail| - |r|..]
      && (forall i :: 0 <= i < |tail| - |r| ==> tail[i] in Separators)
      && (r == [] || r[0] !in Separators)
  {
    TrimStart(if |winPrefix| <= |path| then path[|winPrefix|..] else "", Separators)
  }

  /** Line 143: the Linux prefix joined with the relative part, whose '\'
      become '/'. */
  function LinuxPath(path: string, winPrefix: string, linuxPrefix: string): string {
    PathJoin(linuxPrefix, ReplaceChar(RelativePart(path, winPrefix), '\\', '/'))
  }

  datatype TranslateError = NoMapping(path: string)   // line 147

  /** Lines 132-147 with the match test `matches`: unchanged when
      translation is off, else through the first matching mapping, else an
      error. */
  function Translated(path: string, mappings: seq<(string, string)>, translate: bool,
                      matches: (string, string) -> bool): (r: Result<string, TranslateError>)
  {
    if !translate then Ok(path)
    else match FirstMatchFrom(mappings, path, matches, 0)
      case None => Err(NoMapping(path))
      case Some(i) => Ok(LinuxPath(path, mappings[i].0, mappings[i].1))
  }

  /** What the translation promises: the identity when it is off; an error
      exactly when no mapping matches; otherwise the result is the first
      matching mapping's Linux prefix joined with the relative part of the
      original path, its '\' turned into '/'. */
  lemma TranslatedSpec(path: string, mappings: seq<(string, string)>, translate: bool,
                       matches: (string, string) -> bool)
    ensures var r := Translated(path, mappings, translate, matches);
      && (!translate ==> r == Ok(path))
      && (translate ==> (r.Err? <==> forall k :: 0 <= k < |mappings| ==> !matches(path, mappings[k].0)))
      && (translate && r.Ok? ==>
            exists i :: 0 <= i < |mappings| && matches(path, mappings[i].0)
              && (forall k :: 0 <= k < i ==> !matches(path, mappings[k].0))
              && var rel := ReplaceChar(RelativePart(path, mappings[i].0), '\\', '/');
                 && '\\' !in rel && r.value == PathJoin(mappings[i].1, rel)
                 && StartsWith(r.value, mappings[i].1))
  {
    var r := Translated(path, mappings, translate, matches);
    if translate && r.Ok? {
      var i := FirstMatchFrom(mappings, path, matches, 0).value;
      var rel := ReplaceChar(RelativePart(path, mappings[i].0), '\\', '/');
      assert '\\' !in rel;
      assert !StartsWith(rel, "/");
    }
  }

  /** Lines 132-147: the loop over the mappings in insertion order, leaving
      at the first whose prefix matches. */
  method TranslatePath(windowsPath: string, mappings: seq<(string, string)>, translate: bool,
                       matches: (string, string) -> bool)
    returns (r: Result<string, TranslateError>)
    ensures r == Translated(windowsPath, mappings, translate, matches)
  {
    if !translate {
      return Ok(windowsPath);
    }
    var i := 0;
    while i < |mappings|
      invariant 0 <= i <= |mappings|
      invariant FirstMatchFrom(mappings, windowsPath, matches, 0) == FirstMatchFrom(mappings, windowsPath, matches, i)
    {
      var winPrefix, linuxPrefix := mappings[i].0, mappings[i].1;
      if matches(windowsPath, winPrefix) {
        var relative := RelativePart(windowsPath, winPrefix);
        return Ok(PathJoin(linuxPrefix, ReplaceChar(relative, '\\', '/')));
      }
      i := i + 1;
    }
    return Err(NoMapping(windowsPath));
  }

  /** A path with no '/', no upper-case letter and no trailing separator is
      its own normal form. */
  lemma NormalFormFixed(p: string)
    requires '/' !in p && IsLowerCase(p) && (p == [] || p[|p| - 1] !in Separators)
    ensures NormalizeWindowsPath(p) == p
  {
    assert ReplaceChar(p, '/', '\\') == p;
    LowerFacts(p);
  }

  /** The prefix test of line 141 lets a mapping for one folder capture a
      sibling whose name merely begins the same way: `c:\a` translates
      `c:\ab\c`, as if it were `c:\a\b\c`. */
  lemma PrefixMatchCapturesSibling()
    ensures Translated("c:\\ab\\c", [("c:\\a", "/a")], true, PrefixMatch) == Ok("/a/b/c")
  {
    SiblingMatchesByPrefix();
    SiblingTranslation();
    assert FirstMatchFrom([("c:\\a", "/a")], "c:\\ab\\c", PrefixMatch, 0) == Some(0);
  }

  lemma SiblingMatchesByPrefix()
    ensures PrefixMatch("c:\\ab\\c", "c:\\a")
  {
    NormalFormFixed("c:\\ab\\c");
    NormalFormFixed("c:\\a");
  }

  lemma SiblingTranslation()
    ensures LinuxPath("c:\\ab\\c", "c:\\a", "/a") == "/a/b/c"
  {
    assert "c:\\ab\\c"[4..] == "b\\c";
    assert RelativePart("c:\\ab\\c", "c:\\a") == "b\\c";
    assert ReplaceChar("b\\c", '\\', '/') == "b/c";
  }

  /** With the folder test the sibling is not captured. */
  lemma FolderMatchSkipsSibling()
    ensures Translated("c:\\ab\\c", [("c:\\a", "/a")], true, FolderMatch) == Err(NoMapping("c:\\ab\\c"))
  {
    NormalFormFixed("c:\\ab\\c");
    NormalFormFixed("c:\\a");
    assert !FolderMatch("c:\\ab\\c", "c:\\a");
  }

  /** `p` is the folder `q` or lies below it. */
  predicate InFolder(p: string, q: string) {
    p == q || StartsWith(p, q + "\\")
  }

  /** With the folder test a translated path lies inside the mapped folder:
      the normalised path is the normalised prefix, or that prefix
      followed by a separator. */
  lemma FolderMatchStaysInFolder(path: string, mappings: seq<(string, string)>)
    requires Translated(path, mappings, true, FolderMatch).Ok?
    ensures exists i :: (0 <= i < |mappings| && InFolder(NormalizeWindowsPath(path), NormalizeWindowsPath(mappings[i].0)))
  {
    var i := FirstMatchFrom(mappings, path, FolderMatch, 0).value;
    FolderMatchInFolder(NormalizeWindowsPath(path), NormalizeWindowsPath(mappings[i].0));
  }

  lemma FolderMatchInFolder(p: string, q: string)
    requires StartsWith(p, q) && (|p| == |q| || p[|q|] == '\\')
    ensures InFolder(p, q)
  {
    if |p| != |q| {
      assert p[..|q| + 1] == q + "\\";
    }
  }

  // ---------------------------------------------------------------------
  // load_path_mappings
  // ---------------------------------------------------------------------

  /** The first '"' in `u` at or after `from`. */
  function QuoteFrom(u: string, from: nat): (j: Option<nat>)
    ensures j.None? ==> forall k :: from <= k < |u| ==> u[k] != '"'
    ensures j.Some? ==> from <= j.value < |u| && u[j.value] == '"'
    ensures j.Some? ==> forall k :: from <= k < j.value ==> u[k] != '"'
    decreases |u| - from
  {
    if from >= |u| then None
    else if u[from] == '"' then Some(from)
    else QuoteFrom(u, from + 1)
  }

  /** `"(.+?)"` at the start of `u`: a non-empty text up to the first quote
      after its first character, holding no newline (the regular
      expression's '.' does not match one). */
  function QuotedText(u: string): Option<string> {
    if u == [] || u[0] != '"' then None
    else match QuoteFrom(u, 2)
      case None => None
      case Some(j) => if '\n' in u[1..j] then None else Some(u[1..j])
  }

  /** `->\s*"(.+?)"` at the start of `t`. */
  function AfterArrow(t: string): Option<string> {
    if !StartsWith(t, "->") then None else QuotedText(TrimStart(t[2..], Whitespace))
  }

  /** `\s*->\s*"(.+?)"` at the start of `s`: optional whitespace, the arrow,
      optional whitespace and a quoted target. */
  function ArrowTarget(s: string): Option<string> {
    AfterArrow(TrimStart(s, Whitespace))
  }

  /** `"(.+?)"` followed by what `tail` accepts, for a line starting with
      '"' whose source text so far is `line[1..p]`: the shortest source
      text, free of newlines, after whose closing quote `tail` accepts the
      rest of the line. */
  function SourceAndTarget(line: string, p: nat, tail: string -> Option<string>): Option<(string, string)>
    requires 2 <= p
    decreases |line| - p
  {
    if p >= |line| || line[p] == '\n' then None
    else if line[p] == '"' && tail(line[p + 1..]).Some? then Some((line[1..p], tail(line[p + 1..]).value))
    else SourceAndTarget(line, p + 1, tail)
  }

  /** What one line of the mapping file is. */
  datatype MappingLine = Skipped | Invalid | Mapping(windows: string, linux: string)

  /** Lines 57-67: the line is stripped; blank and '#' lines are skipped; a
      line that does not start with the quoted `"a" -> "b"` form is
      invalid; otherwise both sides are stripped. */
  function ParseMappingLine(raw: string): (m: MappingLine)
    ensures m == Skipped <==> Strip(raw) == "" || Strip(raw)[0] == '#'
    ensures m.Mapping? ==> Strip(raw)[0] == '"'
  {
    var line := Strip(raw);
    if line == "" || line[0] == '#' then Skipped
    else if |line| < 2 || line[0] != '"' || line[1] == '\n' then Invalid
    else match SourceAndTarget(line, 2, ArrowTarget)
      case None => Invalid
      case Some((a, b)) => Mapping(Strip(a), Strip(b))
  }

  /** Source text without quotes or newlines is passed over. */
  lemma {:induction false} SkipSourceText(line: string, p: nat, q: nat, tail: string -> Option<string>)
    requires 2 <= p <= q <= |line|
    requires forall k :: p <= k < q ==> line[k] != '"' && line[k] != '\n'
    ensures SourceAndTarget(line, p, tail) == SourceAndTarget(line, q, tail)
    decreases q - p
  {
    if p < q {
      assert SourceAndTarget(line, p, tail) == SourceAndTarget(line, p + 1, tail);
      SkipSourceText(line, p + 1, q, tail);
    } else {
      assert p == q;
    }
  }

  /** A quoted text without quotes or newlines reads back. */
  lemma QuotedTextOf(text: string)
    requires text != [] && '"' !in text && '\n' !in text
    ensures QuotedText("\"" + text + "\"") == Some(text)
  {
    var u := "\"" + text + "\"";
    var j := 1 + |text|;
    forall k | 1 <= k < j ensures u[k] != '"' && u[k] != '\n' {
      assert u[k] == text[k - 1] && text[k - 1] in text;
    }
    assert u[j] == '"';
    var q := QuoteFrom(u, 2);
    assert q.Some? && !(q.value < j) && !(j < q.value);
    assert u[1..j] == text;
  }

  /** One leading blank before a non-blank start is trimmed. */
  lemma TrimOneBlank(x: string)
    requires x != [] && x[0] !in Whitespace
    ensures TrimStart(" " + x, Whitespace) == x
  {
    assert (" " + x)[1..] == x;
  }

  /** The arrow part of a well-formed line gives back its target. */
  lemma ArrowTargetOf(target: string)
    requires target != [] && '"' !in target && '\n' !in target
    ensures ArrowTarget(" -> \"" + target + "\"") == Some(target)
  {
    var u := "\"" + target + "\"";
    var t := "-> " + u;
    assert " -> \"" + target + "\"" == " " + t;
    TrimOneBlank(t);
    assert t[2..] == " " + u;
    TrimOneBlank(u);
    QuotedTextOf(target);
  }

  /** A quoted source text without quotes or newlines, followed by a rest
      that `tail` accepts, gives that text and what `tail` gives. */
  lemma QuotedSourceOf(source: string, rest: string, tail: string -> Option<string>)
    requires source != [] && '"' !in source && '\n' !in source
    requires tail(rest).Some?
    ensures SourceAndTarget("\"" + source + "\"" + rest, 2, tail) == Some((source, tail(rest).value))
  {
    var line := "\"" + source + "\"" + rest;
    var p := 1 + |source|;
    forall k | 1 <= k < p ensures line[k] != '"' && line[k] != '\n' {
      assert line[k] == source[k - 1] && source[k - 1] in source;
    }
    if p > 2 {
      SkipSourceText(line, 2, p, tail);
    }
    assert line[p] == '"' && line[p + 1..] == rest && line[1..p] == source;
  }

  /** A line written as `"windows" -> "linux"` reads back as the stripped
      pair. */
  lemma MappingLineRoundTrip(windows: string, linux: string)
    requires windows != [] && '"' !in windows && '\n' !in windows
    requires linux != [] && '"' !in linux && '\n' !in linux
    ensures ParseMappingLine("\"" + windows + "\" -> \"" + linux + "\"") == Mapping(Strip(windows), Strip(linux))
  {
    var tail := " -> \"" + linux + "\"";
    var line := "\"" + windows + "\"" + tail;
    assert line == "\"" + windows + "\" -> \"" + linux + "\"";
    StripNoSpaceEnds(line);
    assert line[1] == windows[0] && windows[0] in windows;
    ArrowTargetOf(linux);
    QuotedSourceOf(windows, tail, ArrowTarget);
  }

  /** The pairs the valid lines give, in file order. */
  function ParsedPairs(lines: seq<string>): (ps: seq<(string, string)>)
    ensures |ps| <= |lines|
  {
    if lines == [] then []
    else
      var init := ParsedPairs(lines[..|lines| - 1]);
      var m := ParseMappingLine(lines[|lines| - 1]);
      if m.Mapping? then init + [(m.windows, m.linux)] else init
  }

  /** What the mapping-file setting names: nothing (the variable is unset,
      line 44), a path where no file exists, or a file and its lines. */
  datatype MappingFile = Unset | Absent | Present(lines: seq<string>)

  /** Lines 50-69: with the variable unset, the file test of line 52 raises
      (None is not a path), given here as None; a missing file gives no
      mappings; otherwise each valid line assigns its Windows path in turn. */
  method LoadPathMappings(file: MappingFile) returns (mappings: Option<seq<(string, string)>>)
    ensures mappings.None? <==> file.Unset?
    ensures file.Absent? ==> mappings == Some([])
    ensures file.Present? ==> mappings == Some(FromPairs(ParsedPairs(file.lines)))
  {
    if file.Unset? {
      return None;
    }
    if file.Absent? {
      return Some([]);
    }
    var table: seq<(string, string)> := [];
    var lines := file.lines;
    for i := 0 to |lines|
      invariant table == FromPairs(ParsedPairs(lines[..i]))
    {
      var m := ParseMappingLine(lines[i]);
      LoadStep(lines, i);
      if m.Mapping? {
        table := Put(table, m.windows, m.linux);
      }
    }
    assert lines[..|lines|] == lines;
    mappings := Some(table);
  }

  /** One more line of the file: a valid line assigns its pair, any other
      line leaves the table as it is. */
  lemma LoadStep(lines: seq<string>, i: nat)
    requires i < |lines|
    ensures var m := ParseMappingLine(lines[i]);
      FromPairs(ParsedPairs(lines[..i + 1])) ==
        if m.Mapping? then Put(FromPairs(ParsedPairs(lines[..i])), m.windows, m.linux)
        else FromPairs(ParsedPairs(lines[..i]))
  {
    assert lines[..i + 1] == lines[..i] + [lines[i]];
    ParsedPairsStep(lines[..i], lines[i]);
    var m := ParseMappingLine(lines[i]);
    if m.Mapping? {
      FromPairsSnoc(ParsedPairs(lines[..i]), m.windows, m.linux);
    }
  }

  /** The loaded table names each Windows path once, exactly the paths of
      the valid lines, each with the Linux path of its last line. */
  lemma LoadedMappingsSpec(lines: seq<string>)
    ensures DistinctKeys(FromPairs(ParsedPairs(lines)))
    ensures forall w :: w in KeysOf(FromPairs(ParsedPairs(lines))) <==> w in KeysOf(ParsedPairs(lines))
    ensures forall w :: Lookup(FromPairs(ParsedPairs(lines)), w) == LastValue(ParsedPairs(lines), w)
  {
    FromPairsSpec(ParsedPairs(lines));
  }

  /** Skipped and invalid lines add nothing; a valid line adds its pair. */
  lemma ParsedPairsStep(lines: seq<string>, line: string)
    ensures var m := ParseMappingLine(line);
      ParsedPairs(lines + [line]) == if m.Mapping? then ParsedPairs(lines) + [(m.windows, m.linux)] else ParsedPairs(lines)
  {
    assert (lines + [line])[..|lines|] == lines;
  }
}
