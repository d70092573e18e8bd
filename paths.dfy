/** The three POSIX path helpers the encoder and the download helper use
    (`os.path.join`, `os.path.basename`, `os.path.splitext`), on strings. */
module Paths {
  import opened Common
  import opened Text

  /** `os.path.join(a, b)`: an absolute `b` replaces `a`; otherwise one '/'
      separates them unless `a` is empty or already ends with '/'. */
  function PathJoin(a: string, b: string): (r: string)
    ensures StartsWith(b, "/") ==> r == b
    ensures !StartsWith(b, "/") ==> r == a + b || r == a + "/" + b
    ensures !StartsWith(b, "/") ==> (r == a + "/" + b <==> a != "" && a[|a| - 1] != '/')
  {
    if StartsWith(b, "/") then b
    else if a == "" || a[|a| - 1] == '/' then a + b
    else a + "/" + b
  }

  /** `os.path.basename(p)`: what follows the last '/'. */
  function Basename(p: string): (r: string)
    ensures '/' !in r
    ensures |r| <= |p| && r == p[|p| - |r|..]
    ensures |r| < |p| ==> p[|p| - |r| - 1] == '/'
  {
    if p == [] || p[|p| - 1] == '/' then ""
    else Basename(p[..|p| - 1]) + [p[|p| - 1]]
  }

  function LastIndexOf(s: string, c: char): (r: Option<nat>)
    ensures r.None? ==> c !in s
    ensures r.Some? ==> r.value < |s| && s[r.value] == c && c !in s[r.value + 1..]
  {
    if s == [] then None
    else if s[|s| - 1] == c then Some(|s| - 1)
    else
      var r := LastIndexOf(s[..|s| - 1], c);
      assert r.Some? ==> s[r.value + 1..] == s[..|s| - 1][r.value + 1..] + [s[|s| - 1]];
      r
  }

  /** `os.path.splitext(name)[0]` for a name without '/': the last '.' and
      what follows are dropped, unless every character before that '.' is
      itself a '.' (a leading-dot name such as ".profile" keeps its dot). */
  function Stem(name: string): (r: string)
    ensures |r| <= |name| && r == name[..|r|]
  {
    match LastIndexOf(name, '.')
    case None => name
    case Some(d) =>
      if exists i :: 0 <= i < d && name[i] != '.' then name[..d] else name
  }

  /** Dropping an extension (a '.' and no further '.') from a name that
      has a non-dot character before it. */
  lemma StemOfExtended(base: string, ext: string)
    requires |ext| >= 1 && ext[0] == '.' && '.' !in ext[1..]
    requires exists i :: 0 <= i < |base| && base[i] != '.'
    ensures Stem(base + ext) == base
  {
    var name := base + ext;
    var d := |base|;
    assert name[d] == '.' && name[d + 1..] == ext[1..];
    assert LastIndexOf(name, '.') == Some(d);
    var i :| 0 <= i < |base| && base[i] != '.';
    assert name[i] == base[i];
    assert name[..d] == base;
  }
}
