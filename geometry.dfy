/** The geometry analyser of the media encoder: parsing the probe tool's
    "<w>x<h>" answer, turning the crop-scan tool's "top/bottom/left/right"
    suggestion into a symmetric crop box, parsing a "l,r,t,b" crop string,
    and the padding-or-scale decision of `calculate_output_dimensions`. */
module Geometry {
  import opened Common
  import opened Text

  datatype Dimensions = Dimensions(width: int, height: int)

  /** A crop box in the order of the "l,r,t,b" strings. */
  datatype Crop = Crop(left: int, right: int, top: int, bottom: int)

  datatype OutputGeometry = OutputGeometry(
    width: int, height: int,
    padLeft: int, padRight: int, padTop: int, padBottom: int,
    scale: bool)

  // ---------------------------------------------------------------------
  // Probe output
  // ---------------------------------------------------------------------

  /** `get_video_dimensions` after the probe has run: a non-zero exit code,
      or an answer that is not exactly two integers around one 'x' once
      surrounding whitespace and trailing 'x's are removed, gives no
      dimensions. */
  function ParseProbeOutput(exitCode: int, stdout: string): (r: Option<Dimensions>)
    ensures exitCode != 0 ==> r.None?
  {
    if exitCode != 0 then None
    else
      var parts := Split(TrimEnd(Strip(stdout), {'x'}), 'x');
      if |parts| != 2 then None
      else
        match (ParseInt(parts[0]), ParseInt(parts[1]))
        case (Some(w), Some(h)) => Some(Dimensions(w, h))
        case _ => None
  }

  lemma StripProbeLine(core: string)
    requires core != [] && core[0] !in Whitespace && core[|core| - 1] !in Whitespace
    ensures Strip(core + "x\n") == core + "x"
  {
    var out := core + "x\n";
    assert out[0] == core[0];
    assert TrimStart(out, Whitespace) == out;
    assert out[|out| - 1] == '\n' && out[..|out| - 1] == core + "x";
    assert TrimEnd(core + "x", Whitespace) == core + "x";
    assert TrimEnd(out, Whitespace) == TrimEnd(core + "x", Whitespace);
  }

  lemma TrimTrailingX(core: string)
    requires core != [] && core[|core| - 1] != 'x'
    ensures TrimEnd(core + "x", {'x'}) == core
  {
    assert (core + "x")[..|core|] == core;
  }

  /** The probe's answer for a (w, h) frame, as the csv writer prints it. */
  function ProbeAnswer(w: int, h: int): string {
    IntToString(w) + "x" + IntToString(h) + "x\n"
  }

  lemma ProbeAnswerTrimmed(w: int, h: int)
    ensures TrimEnd(Strip(ProbeAnswer(w, h)), {'x'}) == IntToString(w) + "x" + IntToString(h)
  {
    var ws, hs := IntToString(w), IntToString(h);
    var core := ws + "x" + hs;
    assert ProbeAnswer(w, h) == core + "x\n";
    assert core[0] == ws[0] && core[|core| - 1] == hs[|hs| - 1];
    StripProbeLine(core);
    TrimTrailingX(core);
  }

  lemma ProbeAnswerSplit(w: int, h: int)
    ensures Split(IntToString(w) + "x" + IntToString(h), 'x') == [IntToString(w), IntToString(h)]
  {
    var ws, hs := IntToString(w), IntToString(h);
    IntStringLacks(w, 'x');
    IntStringLacks(h, 'x');
    assert Join([ws, hs], "x") == ws + "x" + hs;
    SplitJoin([ws, hs], 'x');
  }

  /** The probe's answer "<w>x<h>x" followed by a newline parses back to (w, h). */
  lemma ProbeRoundTrip(w: int, h: int)
    ensures ParseProbeOutput(0, ProbeAnswer(w, h)) == Some(Dimensions(w, h))
  {
    ProbeAnswerTrimmed(w, h);
    ProbeAnswerSplit(w, h);
    ParseIntToString(w);
    ParseIntToString(h);
  }

  // ---------------------------------------------------------------------
  // Crop strings
  // ---------------------------------------------------------------------

  /** The "l,r,t,b" string `auto_crop` returns. */
  function FormatCrop(c: Crop): string {
    Join([IntToString(c.left), IntToString(c.right), IntToString(c.top), IntToString(c.bottom)], ",")
  }

  /** `map(int, s.split(','))` unpacked into four values: exactly four
      comma-separated integers, or nothing. */
  function ParseCrop(s: string): Option<Crop> {
    var parts := Split(s, ',');
    if |parts| != 4 then None
    else
      match (ParseInt(parts[0]), ParseInt(parts[1]), ParseInt(parts[2]), ParseInt(parts[3]))
      case (Some(l), Some(r), Some(t), Some(b)) => Some(Crop(l, r, t, b))
      case _ => None
  }

  /** Every crop string the encoder emits parses back to its four values. */
  lemma {:induction false} CropRoundTrip(c: Crop)
    ensures ParseCrop(FormatCrop(c)) == Some(c)
  {
    var parts := Split(FormatCrop(c), ',');
    CropSplit(c);
    assert ParseInt(parts[0]) == Some(c.left) by { ParseIntToString(c.left); }
    assert ParseInt(parts[1]) == Some(c.right) by { ParseIntToString(c.right); }
    assert ParseInt(parts[2]) == Some(c.top) by { ParseIntToString(c.top); }
    assert ParseInt(parts[3]) == Some(c.bottom) by { ParseIntToString(c.bottom); }
  }

  lemma CropSplit(c: Crop)
    ensures Split(FormatCrop(c), ',')
            == [IntToString(c.left), IntToString(c.right), IntToString(c.top), IntToString(c.bottom)]
  {
    IntStringLacks(c.left, ',');
    IntStringLacks(c.right, ',');
    IntStringLacks(c.top, ',');
    IntStringLacks(c.bottom, ',');
    SplitJoin([IntToString(c.left), IntToString(c.right), IntToString(c.top), IntToString(c.bottom)], ',');
  }

  /** The frame left after cropping (lines 202-203). */
  function CroppedDimensions(orig: Dimensions, c: Crop): (d: Dimensions)
    ensures d.width + c.left + c.right == orig.width
    ensures d.height + c.top + c.bottom == orig.height
  {
    Dimensions(orig.width - c.left - c.right, orig.height - c.top - c.bottom)
  }

  // ---------------------------------------------------------------------
  // Auto-crop
  // ---------------------------------------------------------------------

  const AutocropTag := "+ autocrop: "

  /** The rest of the line that starts at `from`. */
  function LineFrom(s: string, from: nat): (r: string)
    requires from <= |s|
    ensures from + |r| <= |s|
    ensures r == s[from..from + |r|] && '\n' !in r
    ensures from + |r| == |s| || s[from + |r|] == '\n'
    decreases |s| - from
  {
    if from == |s| || s[from] == '\n' then ""
    else
      var rest := LineFrom(s, from + 1);
      [s[from]] + rest
  }

  /** `re.search(r"\+ autocrop: (.+)", out).group(1)` searched from `from`:
      the first tag followed by at least one character on its line, and the
      rest of that line. */
  function FindAutocrop(out: string, from: nat): Option<string>
    decreases |out| - from
  {
    if from + |AutocropTag| >= |out| then None
    else if out[from..from + |AutocropTag|] == AutocropTag && out[from + |AutocropTag|] != '\n' then
      Some(LineFrom(out, from + |AutocropTag|))
    else FindAutocrop(out, from + 1)
  }

  /** The four values "top/bottom/left/right" the scan suggests, if the scan
      ran and its suggestion parses. */
  function DetectedCrop(scan: Option<string>): Option<(int, int, int, int)> {
    if scan.None? then None
    else
      match FindAutocrop(scan.value, 0)
      case None => None
      case Some(g) =>
        var parts := Split(g, '/');
        if |parts| != 4 then None
        else
          match (ParseInt(parts[0]), ParseInt(parts[1]), ParseInt(parts[2]), ParseInt(parts[3]))
          case (Some(t), Some(b), Some(l), Some(r)) => Some((t, b, l, r))
          case _ => None
  }

  function Max(a: int, b: int): int { if a < b then b else a }

  /** `int(math.ceil(v / 4.0)) * 4`. */
  function RoundUpTo4(v: int): (r: int)
    ensures r % 4 == 0 && v <= r < v + 4
  {
    ((v + 3) / 4) * 4
  }

  /** The crop box `auto_crop` settles on for the scan's detected margins
      (top, bottom, left, right): the larger of top and bottom, and of left
      and right, each rounded up to a multiple of 4 and used on both sides;
      the empty box when the scan failed or did not parse. */
  function CropBoxOf(detected: Option<(int, int, int, int)>): (c: Crop)
    ensures detected.None? ==> c == Crop(0, 0, 0, 0)
    ensures detected.Some? ==>
      var (t, b, l, r) := detected.value;
      && c.left == c.right && c.top == c.bottom
      && c.left % 4 == 0 && Max(l, r) <= c.left < Max(l, r) + 4
      && c.top % 4 == 0 && Max(t, b) <= c.top < Max(t, b) + 4
  {
    match detected
    case None => Crop(0, 0, 0, 0)
    case Some((t, b, l, r)) =>
      var vertical := RoundUpTo4(Max(t, b));
      var horizontal := RoundUpTo4(Max(l, r));
      Crop(horizontal, horizontal, vertical, vertical)
  }

  /** The crop box of lines 31-56 for the scan tool's output. */
  function AutoCropBox(scan: Option<string>): (c: Crop)
    ensures DetectedCrop(scan).None? ==> c == Crop(0, 0, 0, 0)
    ensures DetectedCrop(scan).Some? ==>
      var (t, b, l, r) := DetectedCrop(scan).value;
      && c.left == c.right && c.top == c.bottom
      && c.left % 4 == 0 && Max(l, r) <= c.left < Max(l, r) + 4
      && c.top % 4 == 0 && Max(t, b) <= c.top < Max(t, b) + 4
  {
    CropBoxOf(DetectedCrop(scan))
  }

  /** `auto_crop`: the crop box as the string "l,r,t,b"; `scan` is the
      scan tool's output, or None when it exited with an error. */
  function AutoCrop(scan: Option<string>): string {
    FormatCrop(AutoCropBox(scan))
  }

  /** Re-parsing `auto_crop`'s string (line 201) gives back its box, and
      non-negative detected values give a non-negative box. */
  lemma AutoCropReparses(scan: Option<string>)
    ensures ParseCrop(AutoCrop(scan)) == Some(AutoCropBox(scan))
    ensures DetectedCrop(scan).Some? ==>
      var (t, b, l, r) := DetectedCrop(scan).value;
      t >= 0 && b >= 0 && l >= 0 && r >= 0 ==>
        var c := AutoCropBox(scan);
        c.left >= 0 && c.right >= 0 && c.top >= 0 && c.bottom >= 0
  {
    CropRoundTrip(AutoCropBox(scan));
  }

  /** The frame left by the crop box for a scan's detected margins (lines
      200-203; `AutoCropBox(scan)` is `CropBoxOf(DetectedCrop(scan))`): a
      failed scan leaves the original; otherwise each axis loses twice its
      larger detected margin, rounded up so that the loss is a multiple of
      8, and non-negative margins never enlarge the frame. */
  lemma AutoCroppedFrame(orig: Dimensions, detected: Option<(int, int, int, int)>)
    ensures var d := CroppedDimensions(orig, CropBoxOf(detected));
      && (orig.width - d.width) % 8 == 0 && (orig.height - d.height) % 8 == 0
      && (detected.None? ==> d == orig)
      && (detected.Some? ==>
            var (t, b, l, r) := detected.value;
            && 2 * Max(l, r) <= orig.width - d.width < 2 * Max(l, r) + 8
            && 2 * Max(t, b) <= orig.height - d.height < 2 * Max(t, b) + 8
            && (t >= 0 && b >= 0 && l >= 0 && r >= 0 ==> d.width <= orig.width && d.height <= orig.height))
  {
    if detected.Some? {
      var (t, b, l, r) := detected.value;
      SymmetricCropFrame(orig, CropBoxOf(detected), Max(l, r), Max(t, b));
    }
  }

  /** A box with the same margin on both sides of an axis, a multiple of 4
      at most 3 above `h` (horizontally) or `v` (vertically). */
  lemma SymmetricCropFrame(orig: Dimensions, c: Crop, h: int, v: int)
    requires c.left == c.right && c.top == c.bottom
    requires c.left % 4 == 0 && h <= c.left < h + 4
    requires c.top % 4 == 0 && v <= c.top < v + 4
    ensures var d := CroppedDimensions(orig, c);
      && (orig.width - d.width) % 8 == 0 && (orig.height - d.height) % 8 == 0
      && 2 * h <= orig.width - d.width < 2 * h + 8
      && 2 * v <= orig.height - d.height < 2 * v + 8
  {
    assert 2 * c.left == 8 * (c.left / 4);
    assert 2 * c.top == 8 * (c.top / 4);
  }

  // ---------------------------------------------------------------------
  // Output dimensions
  // ---------------------------------------------------------------------

  /** Python's `round` on the exact quotient n / d: the nearest integer,
      ties going to the even one. */
  function RoundHalfEven(n: int, d: int): (r: int)
    requires d > 0
    ensures -d <= 2 * (r * d - n) <= d
    ensures (2 * (r * d - n) == d || 2 * (r * d - n) == -d) ==> r % 2 == 0
  {
    var q, m := n / d, n % d;
    assert n == q * d + m;
    if 2 * m < d then q
    else if 2 * m > d then q + 1
    else if q % 2 == 0 then q
    else q + 1
  }

  /** The height that matches `width` at the aspect ratio num/den. */
  function HeightFor(width: int, num: int, den: int): int
    requires num > 0 && den > 0
  {
    RoundHalfEven(width * den, num)
  }

  /** The width that matches `height` at the aspect ratio num/den. */
  function WidthFor(height: int, num: int, den: int): int
    requires num > 0 && den > 0
  {
    RoundHalfEven(height * num, den)
  }

  /** `calculate_output_dimensions` with the desired aspect ratio num/den:
      keep the width and pad top and bottom if that is tall enough, else
      keep the height and pad left and right if that is wide enough, else
      mark the frame for scaling down. */
  function OutputDimensions(cw: int, ch: int, num: int, den: int): (g: OutputGeometry)
    requires num > 0 && den > 0
    ensures HeightFor(cw, num, den) >= ch ==>
      && !g.scale && g.width == cw && g.height == HeightFor(cw, num, den)
      && g.padLeft == 0 && g.padRight == 0
      && g.padTop >= 0 && g.padTop + g.padBottom + ch == g.height
      && 0 <= g.padBottom - g.padTop <= 1
    ensures HeightFor(cw, num, den) < ch && WidthFor(ch, num, den) >= cw ==>
      && !g.scale && g.height == ch && g.width == WidthFor(ch, num, den)
      && g.padTop == 0 && g.padBottom == 0
      && g.padLeft >= 0 && g.padLeft + g.padRight + cw == g.width
      && 0 <= g.padRight - g.padLeft <= 1
    ensures HeightFor(cw, num, den) < ch && WidthFor(ch, num, den) < cw ==>
      && g.scale && g.height == ch && g.width == WidthFor(ch, num, den) && g.width < cw
      && g.padLeft == 0 && g.padRight == 0 && g.padTop == 0 && g.padBottom == 0
  {
    var height := HeightFor(cw, num, den);
    if height >= ch then
      var top := (height - ch) / 2;
      OutputGeometry(cw, height, 0, 0, top, height - ch - top, false)
    else
      var width := WidthFor(ch, num, den);
      if width >= cw then
        var left := (width - cw) / 2;
        OutputGeometry(width, ch, left, width - cw - left, 0, 0, false)
      else
        OutputGeometry(width, ch, 0, 0, 0, 0, true)
  }

  /** Whatever the outcome: no padding is negative, at most one axis is
      padded, the frame is never shrunk without `scale`, and the padded
      frame is within half a pixel of the desired aspect ratio on the axis
      that was derived. */
  lemma OutputGeometryInvariants(cw: int, ch: int, num: int, den: int)
    requires num > 0 && den > 0
    ensures var g := OutputDimensions(cw, ch, num, den);
      && g.padLeft >= 0 && g.padRight >= 0 && g.padTop >= 0 && g.padBottom >= 0
      && ((g.padLeft == 0 && g.padRight == 0) || (g.padTop == 0 && g.padBottom == 0))
      && (g.scale ==> g.padLeft == 0 && g.padRight == 0 && g.padTop == 0 && g.padBottom == 0)
      && (!g.scale ==> g.width >= cw && g.height >= ch)
      && (g.scale ==> g.width < cw && g.height == ch)
      && (HeightFor(cw, num, den) >= ch ==> -num <= 2 * (g.height * num - g.width * den) <= num)
      && (HeightFor(cw, num, den) < ch ==> -den <= 2 * (g.width * den - g.height * num) <= den)
  {
    var g := OutputDimensions(cw, ch, num, den);
    var height := HeightFor(cw, num, den);
    if height >= ch {
      assert g.width == cw && g.height == height;
      assert -num <= 2 * (height * num - cw * den) <= num;
    } else {
      var width := WidthFor(ch, num, den);
      assert g.width == width && g.height == ch;
      assert -den <= 2 * (width * den - ch * num) <= den;
    }
  }

  /** 1920x800 at 16/9 is letterboxed to 1920x1080 with 140 rows top and bottom. */
  lemma LetterboxExample()
    ensures OutputDimensions(1920, 800, 16, 9) == OutputGeometry(1920, 1080, 0, 0, 140, 140, false)
  {
    assert HeightFor(1920, 16, 9) == 1080;
  }

  /** A frame already at 16/9 keeps its size, with no padding and no scaling. */
  lemma ExactRatioExample()
    ensures OutputDimensions(1920, 1080, 16, 9) == OutputGeometry(1920, 1080, 0, 0, 0, 0, false)
  {
    assert HeightFor(1920, 16, 9) == 1080;
  }
}
