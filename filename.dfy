/** The output name of an encoded file (lines 297-318): the input's stem
    with every codec marker replaced by the encoder's label and every REMUX
    marker removed, both case-insensitively, then ".mkv". */
module Filename {
  import opened Common
  import opened Text
  import opened Paths
  import opened EncodeParams

  /** Markers that name a codec, replaced in this order. */
  const ReplaceMarkers: seq<string> := ["HEVC", "AVC", "H.265", "H.264", "h264", "h265", "x264", "x265", "VC-1"]

  /** Markers of a remux release, removed in this order. */
  const RemoveMarkers: seq<string> := [".REMUX", " REMUX", "REMUX"]

  predicate NonEmptyMarkers(ms: seq<string>) {
    forall i :: 0 <= i < |ms| ==> |ms[i]| > 0
  }

  /** One `re.sub` per marker, in list order: each pass sees the result of
      the passes before it. */
  function ReplaceAll(s: string, markers: seq<string>, rep: string): string
    requires NonEmptyMarkers(markers)
    decreases |markers|
  {
    if markers == [] then s
    else ReplaceAll(ReplaceCI(s, markers[0], rep), markers[1..], rep)
  }

  /** The stem after both marker passes. */
  function CleanStem(stem: string, e: Encoder): string {
    MarkerListsNonEmpty();
    ReplaceAll(ReplaceAll(stem, ReplaceMarkers, DisplayLabel(e)), RemoveMarkers, "")
  }

  /** The cleaned name the encoder gives the output of `inputFile`. */
  function CleanName(inputFile: string, e: Encoder): (name: string)
    ensures |name| >= 4 && name[|name| - 4..] == ".mkv"
  {
    CleanStem(Stem(Basename(inputFile)), e) + ".mkv"
  }

  lemma MarkerListsNonEmpty()
    ensures NonEmptyMarkers(ReplaceMarkers) && NonEmptyMarkers(RemoveMarkers)
  {
  }

  /** One marker loop of lines 311-317: `re.sub` with each marker in turn. */
  method SubstituteEach(s: string, markers: seq<string>, rep: string) returns (r: string)
    requires NonEmptyMarkers(markers)
    ensures r == ReplaceAll(s, markers, rep)
  {
    r := s;
    for k := 0 to |markers|
      invariant ReplaceAll(r, markers[k..], rep) == ReplaceAll(s, markers, rep)
    {
      assert markers[k..][1..] == markers[k + 1..];
      r := ReplaceCI(r, markers[k], rep);
    }
  }

  /** Lines 308-318: the stem of the input's basename, the codec markers
      replaced by the encoder's label, the remux markers removed, ".mkv" added. */
  method CleanedFilename(inputFile: string, e: Encoder) returns (name: string)
    ensures name == CleanName(inputFile, e)
  {
    MarkerListsNonEmpty();
    var base := Stem(Basename(inputFile));
    base := SubstituteEach(base, ReplaceMarkers, DisplayLabel(e));
    base := SubstituteEach(base, RemoveMarkers, "");
    name := base + ".mkv";
  }

  /** Passes for markers that do not occur leave the text alone. */
  lemma {:induction false} ReplaceAllWithoutMatch(s: string, markers: seq<string>, rep: string)
    requires NonEmptyMarkers(markers)
    requires forall i :: 0 <= i < |markers| ==> !ContainsCI(s, markers[i])
    ensures ReplaceAll(s, markers, rep) == s
    decreases |markers|
  {
    if markers != [] {
      ReplaceWithoutMatch(s, markers[0], rep);
      ReplaceAllWithoutMatch(s, markers[1..], rep);
    }
  }

  /** A name without '/' is its own basename. */
  lemma {:induction false} BasenameOfName(p: string)
    requires '/' !in p
    ensures Basename(p) == p
  {
    if p != [] {
      assert '/' !in p[..|p| - 1];
      BasenameOfName(p[..|p| - 1]);
    }
  }

  /** The absence of every marker, case-insensitively. */
  predicate Unmarked(stem: string) {
    && (forall i :: 0 <= i < |ReplaceMarkers| ==> !ContainsCI(stem, ReplaceMarkers[i]))
    && (forall i :: 0 <= i < |RemoveMarkers| ==> !ContainsCI(stem, RemoveMarkers[i]))
  }

  /** A stem that carries no marker survives both passes verbatim. */
  lemma CleanStemOfUnmarked(stem: string, e: Encoder)
    requires Unmarked(stem)
    ensures CleanStem(stem, e) == stem
  {
    MarkerListsNonEmpty();
    ReplaceAllWithoutMatch(stem, ReplaceMarkers, DisplayLabel(e));
    ReplaceAllWithoutMatch(stem, RemoveMarkers, "");
  }

  /** A cleaned name whose stem carries no marker is cleaned to itself. */
  lemma CleanNameOfCleanedName(stem: string, e: Encoder)
    requires Unmarked(stem) && '/' !in stem
    requires exists i :: 0 <= i < |stem| && stem[i] != '.'
    ensures CleanName(stem + ".mkv", e) == stem + ".mkv"
  {
    StemOfCleanedName(stem, ".mkv");
    CleanStemOfUnmarked(stem, e);
  }

  /** Cleaning a name whose stem carries no marker and is not made of dots
      only gives that stem with ".mkv", and cleaning that again changes
      nothing. */
  lemma CleanNameIdempotentOnUnmarked(inputFile: string, e: Encoder)
    requires Unmarked(Stem(Basename(inputFile)))
    requires exists i :: 0 <= i < |Stem(Basename(inputFile))| && Stem(Basename(inputFile))[i] != '.'
    ensures CleanName(inputFile, e) == Stem(Basename(inputFile)) + ".mkv"
    ensures CleanName(CleanName(inputFile, e), e) == CleanName(inputFile, e)
  {
    var stem := Stem(Basename(inputFile));
    CleanStemOfUnmarked(stem, e);
    assert '/' !in stem by {
      assert stem == Basename(inputFile)[..|stem|];
    }
    CleanNameOfCleanedName(stem, e);
  }

  /** "AREMUXVC" carries no codec marker: each marker has a character the
      name lacks, except "AVC", whose 'A' is followed by 'R'. */
  lemma NoCodecMarkerInSample()
    ensures forall i :: 0 <= i < |ReplaceMarkers| ==> !ContainsCI("AREMUXVC", ReplaceMarkers[i])
  {
    var s := "AREMUXVC";
    AbsentChar(s, "HEVC", 0);
    forall i: nat | i <= |s| ensures !MatchesAtCI(s, i, "AVC") {
      if i + 3 <= |s| {
        if i == 0 {
          assert Lower(s[0..3])[1] != Lower("AVC")[1];
        } else {
          assert Lower(s[i..i + 3])[0] != Lower("AVC")[0];
        }
      }
    }
    AbsentChar(s, "H.265", 0);
    AbsentChar(s, "H.264", 0);
    AbsentChar(s, "h264", 0);
    AbsentChar(s, "h265", 0);
    AbsentChar(s, "x264", 1);
    AbsentChar(s, "x265", 1);
    AbsentChar(s, "VC-1", 2);
  }

  /** The remux pass turns "AREMUXVC" into "AVC". */
  lemma RemuxRemovedFromSample()
    ensures ReplaceAll("AREMUXVC", RemoveMarkers, "") == "AVC"
  {
    var s := "AREMUXVC";
    MarkerListsNonEmpty();
    AbsentChar(s, ".REMUX", 0);
    ReplaceWithoutMatch(s, ".REMUX", "");
    AbsentChar(s, " REMUX", 0);
    ReplaceWithoutMatch(s, " REMUX", "");
    BareRemuxOnSample();
    assert RemoveMarkers[1..][1..] == ["REMUX"];
  }

  /** The bare "REMUX" marker matches once, after the leading 'A'. */
  lemma BareRemuxOnSample()
    ensures ReplaceCI("AREMUXVC", "REMUX", "") == "AVC"
  {
    var s := "AREMUXVC";
    assert ReplaceCI("REMUXVC", "REMUX", "") == "VC" by {
      assert "REMUXVC"[..5] == "REMUX" && "REMUXVC"[5..] == "VC";
      assert ReplaceCI("VC", "REMUX", "") == "VC";
    }
    assert Lower(s[..5])[0] != Lower("REMUX")[0];
    assert s[1..] == "REMUXVC";
  }

  /** The stem of a name made of a stem and an extension is that stem. */
  lemma StemOfCleanedName(stem: string, ext: string)
    requires '/' !in stem && '/' !in ext
    requires |ext| >= 1 && ext[0] == '.' && '.' !in ext[1..]
    requires exists i :: 0 <= i < |stem| && stem[i] != '.'
    ensures Stem(Basename(stem + ext)) == stem
  {
    assert '/' !in stem + ext;
    BasenameOfName(stem + ext);
    StemOfExtended(stem, ext);
  }

  lemma StemOfSample()
    ensures Stem(Basename("AREMUXVC.mkv")) == "AREMUXVC"
  {
    var s := "AREMUXVC";
    assert s[0] != '.';
    StemOfCleanedName(s, ".mkv");
    assert "AREMUXVC.mkv" == s + ".mkv";
  }

  lemma CleanStemOfSample()
    ensures CleanStem("AREMUXVC", Libx265) == "AVC"
  {
    MarkerListsNonEmpty();
    NoCodecMarkerInSample();
    ReplaceAllWithoutMatch("AREMUXVC", ReplaceMarkers, "x265");
    RemuxRemovedFromSample();
  }

  /** Running the passes of two marker lists one after the other. */
  lemma {:induction false} ReplaceAllAppend(s: string, a: seq<string>, b: seq<string>, rep: string)
    requires NonEmptyMarkers(a) && NonEmptyMarkers(b)
    ensures NonEmptyMarkers(a + b)
    ensures ReplaceAll(s, a + b, rep) == ReplaceAll(ReplaceAll(s, a, rep), b, rep)
    decreases |a|
  {
    if a != [] {
      assert (a + b)[0] == a[0] && (a + b)[1..] == a[1..] + b;
      ReplaceAllAppend(ReplaceCI(s, a[0], rep), a[1..], b, rep);
    } else {
      assert a + b == b;
    }
  }

  lemma LeadingCodecPassesOnAVC()
    ensures NonEmptyMarkers(["HEVC", "AVC"])
    ensures ReplaceAll("AVC", ["HEVC", "AVC"], "x265") == "x265"
  {
    assert ReplaceCI("AVC", "HEVC", "x265") == "AVC";
    assert ReplaceCI("", "AVC", "x265") == "";
    assert ReplaceCI("AVC", "AVC", "x265") == "x265";
    assert ReplaceAll("AVC", ["AVC"], "x265") == ReplaceAll("x265", [], "x265");
  }

  lemma MiddleCodecPassesOnLabel()
    ensures NonEmptyMarkers(["H.265", "H.264", "h264", "h265", "x264"])
    ensures ReplaceAll("x265", ["H.265", "H.264", "h264", "h265", "x264"], "x265") == "x265"
  {
    var t := "x265";
    AbsentChar(t, "H.265", 0);
    AbsentChar(t, "H.264", 0);
    AbsentChar(t, "h264", 0);
    AbsentChar(t, "h265", 0);
    forall i: nat | i <= |t| ensures !MatchesAtCI(t, i, "x264") {
      if i == 0 {
        assert Lower(t[0..4])[3] != Lower("x264")[3];
      }
    }
    ReplaceAllWithoutMatch(t, ["H.265", "H.264", "h264", "h265", "x264"], t);
  }

  lemma TrailingCodecPassesOnLabel()
    ensures NonEmptyMarkers(["x265", "VC-1"])
    ensures ReplaceAll("x265", ["x265", "VC-1"], "x265") == "x265"
  {
    var t := "x265";
    assert ReplaceCI("", "x265", t) == "";
    assert ReplaceCI(t, "x265", t) == t;
    AbsentChar(t, "VC-1", 0);
    ReplaceWithoutMatch(t, "VC-1", t);
    assert ReplaceAll(t, ["VC-1"], t) == ReplaceAll(t, [], t);
  }

  /** The codec pass turns "AVC" into the x265 label, which later markers keep. */
  lemma CodecPassOnAVC()
    ensures ReplaceAll("AVC", ReplaceMarkers, "x265") == "x265"
  {
    var head, middle, tail := ["HEVC", "AVC"], ["H.265", "H.264", "h264", "h265", "x264"], ["x265", "VC-1"];
    LeadingCodecPassesOnAVC();
    MiddleCodecPassesOnLabel();
    TrailingCodecPassesOnLabel();
    assert ReplaceMarkers == head + (middle + tail);
    ReplaceAllAppend("x265", middle, tail, "x265");
    ReplaceAllAppend("AVC", head, middle + tail, "x265");
  }

  /** The remux pass leaves the x265 label alone. */
  lemma RemuxPassOnLabel()
    ensures ReplaceAll("x265", RemoveMarkers, "") == "x265"
  {
    MarkerListsNonEmpty();
    AbsentChar("x265", ".REMUX", 0);
    AbsentChar("x265", " REMUX", 0);
    AbsentChar("x265", "REMUX", 0);
    ReplaceAllWithoutMatch("x265", RemoveMarkers, "");
  }

  lemma StemOfCleanedSample()
    ensures Stem(Basename("AVC" + ".mkv")) == "AVC"
  {
    var s := "AVC";
    assert s[0] != '.';
    StemOfCleanedName(s, ".mkv");
  }

  lemma CleanStemOfCleanedSample()
    ensures CleanStem("AVC", Libx265) == "x265"
  {
    CodecPassOnAVC();
    RemuxPassOnLabel();
  }

  lemma SecondCleaningOfSample()
    ensures CleanName("AVC" + ".mkv", Libx265) == "x265" + ".mkv"
  {
    StemOfCleanedSample();
    CleanStemOfCleanedSample();
    CleanNameVia("AVC" + ".mkv", Libx265, "AVC", "x265");
  }

  /** A name's cleaned form from its stem and that stem's cleaned form. */
  lemma CleanNameVia(name: string, e: Encoder, stem: string, cleaned: string)
    requires Stem(Basename(name)) == stem && CleanStem(stem, e) == cleaned
    ensures CleanName(name, e) == cleaned + ".mkv"
  {
  }

  lemma FirstCleaningOfSample()
    ensures CleanName("AREMUXVC.mkv", Libx265) == "AVC" + ".mkv"
  {
    StemOfSample();
    CleanStemOfSample();
    CleanNameVia("AREMUXVC.mkv", Libx265, "AREMUXVC", "AVC");
  }

  /** Passes that each leave the text alone leave it alone together. */
  lemma {:induction false} ReplaceAllFixed(t: string, markers: seq<string>, rep: string)
    requires NonEmptyMarkers(markers)
    requires forall i :: 0 <= i < |markers| ==> ReplaceCI(t, markers[i], rep) == t
    ensures ReplaceAll(t, markers, rep) == t
    decreases |markers|
  {
    if markers != [] {
      ReplaceAllFixed(t, markers[1..], rep);
    }
  }

  /** Only position 5 of "Film.x265" folds to 'x'. */
  lemma OnlyXAtFive(t: string, pat: string, j: nat)
    requires t == "Film.x265" && |pat| > 0 && pat[0] == 'x' && j != 5
    ensures !MatchesAtCI(t, j, pat)
  {
    if j + |pat| <= |t| {
      assert Lower(t[j..j + |pat|])[0] == LowerChar(t[j]) != 'x';
    }
  }

  /** The x264 pass finds nothing in "Film.x265". */
  lemma X264PassOnSample(t: string, pat: string, rep: string)
    requires t == "Film.x265" && pat == "x264"
    ensures ReplaceCI(t, pat, rep) == t
  {
    forall j: nat | j <= |t| ensures !MatchesAtCI(t, j, pat) {
      if j == 5 {
        assert Lower(t[5..9])[3] != Lower(pat)[3];
      } else {
        OnlyXAtFive(t, pat, j);
      }
    }
    ReplaceWithoutMatch(t, pat, rep);
  }

  /** The x265 pass replaces the label in "Film.x265" by itself. */
  lemma X265PassOnSample(t: string, pat: string)
    requires t == "Film.x265" && pat == "x265"
    ensures ReplaceCI(t, pat, pat) == t
  {
    forall j: nat | j < 5 ensures !MatchesAtCI(t, j, pat) {
      OnlyXAtFive(t, pat, j);
    }
    assert t[5..9] == pat;
    ReplaceFirstMatch(t, pat, pat, 5);
    assert t[9..] == [];
    assert t[..5] + pat == t;
  }

  /** The codec markers after "HEVC". */
  const LaterMarkers: seq<string> := ["AVC", "H.265", "H.264", "h264", "h265", "x264", "x265", "VC-1"]

  /** Each codec pass after the first leaves "Film.x265" alone: "x265"
      replaces itself, and every other marker has a character that the
      text lacks in either case, except "x264", which differs in its last. */
  lemma LaterMarkerKeepsSample(t: string, m: string, rep: string)
    requires t == "Film.x265" && rep == "x265" && m in LaterMarkers
    ensures ReplaceCI(t, m, rep) == t
  {
    if m == "x264" {
      X264PassOnSample(t, m, rep);
    } else if m == "x265" {
      X265PassOnSample(t, m);
    } else {
      if m == "AVC" {
        AbsentChar(t, m, 1);
      } else {
        AbsentChar(t, m, 0);
      }
      ReplaceWithoutMatch(t, m, rep);
    }
  }

  /** The HEVC pass replaces the lower-case "hevc" of "Film.hevc". */
  lemma HevcPassOnSample(s: string, pat: string, rep: string)
    requires s == "Film.hevc" && pat == "HEVC" && rep == "x265"
    ensures ReplaceCI(s, pat, rep) == "Film.x265"
  {
    forall j: nat | j < 5 ensures !MatchesAtCI(s, j, pat) {
      assert Lower(s[j..j + 4])[0] == LowerChar(s[j]) != 'h';
    }
    assert Lower(s[5..9]) == Lower(pat);
    ReplaceFirstMatch(s, pat, rep, 5);
    assert s[9..] == [];
    assert s[..5] + rep == "Film.x265";
  }

  /** The codec pass replaces the lower-case "hevc" of "Film.hevc" by the
      x265 label, and every later codec marker leaves the result alone. */
  lemma CodecPassOnLowerMarker(s: string, t: string, rep: string)
    requires s == "Film.hevc" && t == "Film.x265" && rep == "x265"
    ensures ReplaceAll(s, ReplaceMarkers, rep) == t
  {
    HevcPassOnSample(s, "HEVC", rep);
    forall i | 0 <= i < |LaterMarkers| ensures ReplaceCI(t, LaterMarkers[i], rep) == t {
      LaterMarkerKeepsSample(t, LaterMarkers[i], rep);
    }
    MarkerListsNonEmpty();
    assert ReplaceMarkers == ["HEVC"] + LaterMarkers;
    assert ReplaceMarkers[1..] == LaterMarkers;
    ReplaceAllFixed(t, LaterMarkers, rep);
  }

  /** The remux pass leaves "Film.x265" alone. */
  lemma RemuxPassOnSample()
    ensures ReplaceAll("Film.x265", RemoveMarkers, "") == "Film.x265"
  {
    MarkerListsNonEmpty();
    AbsentChar("Film.x265", ".REMUX", 1);
    AbsentChar("Film.x265", " REMUX", 1);
    AbsentChar("Film.x265", "REMUX", 0);
    ReplaceAllWithoutMatch("Film.x265", RemoveMarkers, "");
  }

  /** Markers are matched regardless of case: the lower-case "hevc" in
      "Film.hevc.mkv" is replaced by the x265 label. */
  lemma CleanNameReplacesLowerCaseMarker()
    ensures CleanName("Film.hevc.mkv", Libx265) == "Film.x265" + ".mkv"
  {
    StemOfLowerCaseSample();
    CleanStemOfLowerCaseSample();
    CleanNameVia("Film.hevc.mkv", Libx265, "Film.hevc", "Film.x265");
  }

  lemma StemOfLowerCaseSample()
    ensures Stem(Basename("Film.hevc.mkv")) == "Film.hevc"
  {
    var s := "Film.hevc";
    assert s[0] != '.';
    StemOfCleanedName(s, ".mkv");
    assert "Film.hevc.mkv" == s + ".mkv";
  }

  lemma CleanStemOfLowerCaseSample()
    ensures CleanStem("Film.hevc", Libx265) == "Film.x265"
  {
    CodecPassOnLowerMarker("Film.hevc", "Film.x265", "x265");
    RemuxPassOnSample();
  }

  /** Cleaning is not idempotent in general: removing "REMUX" from
      "AREMUXVC" leaves "AVC", which a second pass replaces by the label. */
  lemma CleanNameNotIdempotent()
    ensures CleanName("AREMUXVC.mkv", Libx265) == "AVC" + ".mkv"
    ensures CleanName(CleanName("AREMUXVC.mkv", Libx265), Libx265) == "x265" + ".mkv"
  {
    FirstCleaningOfSample();
    SecondCleaningOfSample();
  }
}
