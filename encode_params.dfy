/** The encode-parameter builder of the media encoder: the codec-name map,
    the per-encoder option bundles with their psy-rd tweak, the preset flag
    and the thread budget. */
module EncodeParams {
  import opened Common
  import opened Text

  datatype Encoder = Libx264 | Libx265 | LibvpxVp9 | Libsvtav1

  /** The encoder identifier handed to ffmpeg's '-c:v'. */
  function EncoderName(e: Encoder): string {
    match e
    case Libx264 => "libx264"
    case Libx265 => "libx265"
    case LibvpxVp9 => "libvpx-vp9"
    case Libsvtav1 => "libsvtav1"
  }

  /** `codec_map[output_codec]`: exactly five user-facing names are known. */
  function CodecFor(name: string): (r: Option<Encoder>)
    ensures r.Some? <==> name in {"h264", "h265", "hevc", "vp9", "av1"}
    ensures r == Some(Libx264) <==> name == "h264"
    ensures r == Some(Libx265) <==> name == "h265" || name == "hevc"
    ensures r == Some(LibvpxVp9) <==> name == "vp9"
    ensures r == Some(Libsvtav1) <==> name == "av1"
  {
    if name == "h264" then Some(Libx264)
    else if name == "h265" || name == "hevc" then Some(Libx265)
    else if name == "vp9" then Some(LibvpxVp9)
    else if name == "av1" then Some(Libsvtav1)
    else None
  }

  /** The label an output filename carries for each encoder. */
  function DisplayLabel(e: Encoder): string {
    match e
    case Libx264 => "x264"
    case Libx265 => "x265"
    case LibvpxVp9 => "VP9"
    case Libsvtav1 => "AV1"
  }

  /** The option bundles before the psy-rd tweak (lines 138-161). None of
      them sets a pixel format, so '-pix_fmt' is never emitted. */
  function BaseOptions(e: Encoder): seq<string> {
    match e
    case Libx264 => ["-bf", "4", "-rc-lookahead", "32", "-aq-mode", "3", "-b-pyramid", "normal", "-coder", "1"]
    case Libx265 => ["-x265-params", "rc-lookahead=32:aq-mode=3:bframes=4:no-sao=1"]
    case LibvpxVp9 => []
    case Libsvtav1 => []
  }

  const X265Params := "-x265-params"
  const X265PsyRd := ":psy-rd=3:psy-rdoq=3"

  /** Index of the first occurrence of `x` in `s`, or |s|. */
  function FirstIndex(s: seq<string>, x: string): (i: nat)
    ensures i <= |s| && x !in s[..i]
    ensures i < |s| ==> s[i] == x
  {
    if s == [] || s[0] == x then 0
    else
      var i := 1 + FirstIndex(s[1..], x);
      assert s[..i] == [s[0]] + s[1..][..i - 1];
      i
  }

  /** The psy-rd tweak of lines 172-179: x264 gets two discrete flags
      appended; x265 gets the suffix added to the value that follows the
      first '-x265-params' (and fails like Python's IndexError when that
      flag is the last element); the other encoders are left alone. */
  method TunePsyRd(e: Encoder, options: seq<string>) returns (tuned: Option<seq<string>>)
    ensures e == Libx264 ==> tuned == Some(options + ["-psy-rd", "3.0:0.0"])
    ensures e == LibvpxVp9 || e == Libsvtav1 ==> tuned == Some(options)
    ensures e == Libx265 ==>
      var i := FirstIndex(options, X265Params);
      && (tuned.None? <==> i == |options| - 1)
      && (tuned.Some? ==>
            && |tuned.value| == |options|
            && (forall j :: 0 <= j < |options| && j != i + 1 ==> tuned.value[j] == options[j])
            && (i + 1 < |options| ==> tuned.value[i + 1] == options[i + 1] + X265PsyRd))
  {
    if e == Libx264 {
      return Some(options + ["-psy-rd", "3.0:0.0"]);
    } else if e == Libx265 {
      var opts := options;
      var i := 0;
      while i < |opts|
        invariant 0 <= i <= |opts| == |options|
        invariant opts == options
        invariant X265Params !in options[..i]
      {
        if opts[i] == X265Params {
          if i + 1 >= |opts| {
            return None;
          }
          opts := opts[i + 1 := opts[i + 1] + X265PsyRd];
          assert FirstIndex(options, X265Params) == i;
          return Some(opts);
        }
        assert options[..i + 1] == options[..i] + [options[i]];
        i := i + 1;
      }
      assert options[..i] == options;
      return Some(opts);
    }
    return Some(options);
  }

  /** The option list the encoder actually passes (lines 171-179 applied to
      the bundles): x264 ends with the psy-rd pair, x265 keeps one
      '-x265-params' pair whose value carries the psy-rd suffix, VP9 and AV1
      pass nothing. */
  function TunedOptions(e: Encoder): (opts: seq<string>)
    ensures e == Libx264 ==>
      |opts| == |BaseOptions(e)| + 2 && opts[..|BaseOptions(e)|] == BaseOptions(e)
      && opts[|opts| - 2..] == ["-psy-rd", "3.0:0.0"]
    ensures e == Libx265 ==>
      |opts| == 2 && opts[0] == X265Params && opts[1] == BaseOptions(e)[1] + X265PsyRd
    ensures e == LibvpxVp9 || e == Libsvtav1 ==> opts == []
  {
    match e
    case Libx264 => BaseOptions(e) + ["-psy-rd", "3.0:0.0"]
    case Libx265 => [X265Params, BaseOptions(e)[1] + X265PsyRd]
    case _ => []
  }

  /** The in-place tweak of lines 171-179, run on the bundle of each
      encoder, yields exactly the tuned option list (it never hits the
      missing-value case). */
  lemma TunePsyRdOnBundles(e: Encoder, tuned: Option<seq<string>>)
    requires e == Libx264 ==> tuned == Some(BaseOptions(e) + ["-psy-rd", "3.0:0.0"])
    requires e == LibvpxVp9 || e == Libsvtav1 ==> tuned == Some(BaseOptions(e))
    requires e == Libx265 ==>
      var options := BaseOptions(e);
      var i := FirstIndex(options, X265Params);
      && (tuned.None? <==> i == |options| - 1)
      && (tuned.Some? ==>
            && |tuned.value| == |options|
            && (forall j :: 0 <= j < |options| && j != i + 1 ==> tuned.value[j] == options[j])
            && (i + 1 < |options| ==> tuned.value[i + 1] == options[i + 1] + X265PsyRd))
    ensures tuned == Some(TunedOptions(e))
  {
    if e == Libx265 {
      var options := BaseOptions(e);
      assert FirstIndex(options, X265Params) == 0;
      assert tuned.Some?;
      assert tuned.value[0] == options[0];
      assert tuned.value == [tuned.value[0], tuned.value[1]];
    }
  }

  /** The preset-style flag: x264 and x265 take a named preset, VP9 and AV1 a speed number. */
  function SpeedFlag(e: Encoder): (flag: string)
    ensures e == Libx264 || e == Libx265 ==> flag == "-preset"
    ensures e == LibvpxVp9 || e == Libsvtav1 ==> flag == "-cpu-used"
  {
    if e == Libx264 || e == Libx265 then "-preset" else "-cpu-used"
  }

  /** The per-thread CPU cost used to size the thread count: 4.5 for x265, 0.8 otherwise. */
  function Divisor(e: Encoder): (d: real)
    ensures d > 0.0
  {
    if e == Libx265 then 9.0 / 2.0 else 4.0 / 5.0
  }

  /** `max(1, int(cores * (pct / 100) // divisor))`, then at most 16 for
      x264 (lines 182-191). */
  function ThreadCount(cores: nat, pct: real, e: Encoder): (n: int)
    ensures n >= 1
    ensures e == Libx264 ==> n <= 16
  {
    var share := (cores as real) * (pct / 100.0);
    var k := (share / Divisor(e)).Floor;
    var n := if k < 1 then 1 else k;
    if e == Libx264 && n > 16 then 16 else n
  }

  /** The thread count is the largest whole number of threads whose
      combined cost fits the CPU share, but at least one, and for x264 at
      most sixteen. */
  lemma ThreadCountFitsShare(cores: nat, pct: real, e: Encoder)
    ensures var n := ThreadCount(cores, pct, e);
      && (n == 1 || (n as real) * Divisor(e) <= (cores as real) * (pct / 100.0))
      && ((e == Libx264 && n == 16) || ((n + 1) as real) * Divisor(e) > (cores as real) * (pct / 100.0))
  {
    var share := (cores as real) * (pct / 100.0);
    var k := (share / Divisor(e)).Floor;
    assert (k as real) * Divisor(e) <= share < ((k + 1) as real) * Divisor(e);
  }

  /** A larger CPU percentage never yields fewer threads. */
  lemma ThreadCountMonotone(cores: nat, p: real, q: real, e: Encoder)
    requires p <= q
    ensures ThreadCount(cores, p, e) <= ThreadCount(cores, q, e)
  {
    var d := Divisor(e);
    var sp, sq := (cores as real) * (p / 100.0), (cores as real) * (q / 100.0);
    ScaleMonotone(cores as real, p / 100.0, q / 100.0);
    QuotientMonotone(sp, sq, d);
  }

  lemma ScaleMonotone(c: real, a: real, b: real)
    requires 0.0 <= c && a <= b
    ensures c * a <= c * b
  {
  }

  lemma QuotientMonotone(a: real, b: real, d: real)
    requires a <= b && d > 0.0
    ensures (a / d).Floor <= (b / d).Floor
  {
    assert a / d <= b / d;
  }
}
