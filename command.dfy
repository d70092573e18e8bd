/** The command lines the media encoder hands to its external tools: the
    video filter chain, the ffmpeg argument list (grown by appends, as the
    encoder grows it) and the mkvmerge argument list. */
module Command {
  import opened Common
  import opened Text
  import opened Geometry
  import opened EncodeParams

  /** The crop filter of line 218. */
  function CropFilter(c: Crop): string {
    "crop=w=iw-" + IntToString(c.left) + "-" + IntToString(c.right)
      + ":h=ih-" + IntToString(c.top) + "-" + IntToString(c.bottom)
      + ":x=" + IntToString(c.left) + ":y=" + IntToString(c.top)
  }

  /** The scale filter of line 221: the width is the resolution limit as
      configured (`limit` is its printed form) and the height is left to
      ffmpeg ("-2": keep the ratio, even size). */
  function ScaleFilter(limit: string): string {
    "scale=w=" + limit + ":h=-2"
  }

  /** The filter chain of lines 215-222: the crop filter when cropping, then
      the scale filter when a resolution limit is set, and nothing else. */
  function FilterChain(crop: Option<Crop>, limit: Option<string>): (chain: seq<string>)
    ensures |chain| == (if crop.Some? then 1 else 0) + (if limit.Some? then 1 else 0)
    ensures chain == [] <==> crop.None? && limit.None?
    ensures crop.Some? ==> chain[0] == CropFilter(crop.value)
    ensures limit.Some? ==> chain[|chain| - 1] == ScaleFilter(limit.value)
  {
    (if crop.Some? then [CropFilter(crop.value)] else [])
      + (if limit.Some? then [ScaleFilter(limit.value)] else [])
  }

  /** The chain grown by appends, as lines 215-222 grow it. */
  method BuildFilterChain(crop: Option<Crop>, limit: Option<string>) returns (chain: seq<string>)
    ensures chain == FilterChain(crop, limit)
  {
    chain := [];
    if crop.Some? {
      chain := chain + [CropFilter(crop.value)];
    }
    if limit.Some? {
      chain := chain + [ScaleFilter(limit.value)];
    }
  }

  /** What one ffmpeg run needs besides the input and output paths. */
  datatype EncodeSettings = EncodeSettings(
    codec: Encoder,
    quality: string,
    speed: string,
    tune: string,
    customParams: string,
    options: seq<string>)

  /** The input part: overwrite the output, read `mediaFile`. */
  function InputArgs(mediaFile: string): seq<string> {
    ["ffmpeg", "-y", "-i", mediaFile]
  }

  /** The '-vf' pair, present only when there is a filter, the filters joined by ','. */
  function FilterArgs(filterChain: seq<string>): seq<string> {
    if filterChain != [] then ["-vf", Join(filterChain, ",")] else []
  }

  /** The encoder flags: first video stream only, encoder, quality, thread count. */
  function EncoderArgs(settings: EncodeSettings, threads: int): seq<string> {
    ["-map", "v:0", "-c:v", EncoderName(settings.codec), "-crf", settings.quality,
     "-threads", IntToString(threads)]
  }

  /** The speed pair: the encoder's preset-style flag and its value. */
  function SpeedArgs(settings: EncodeSettings): seq<string> {
    [SpeedFlag(settings.codec), settings.speed]
  }

  /** The '-tune' pair, present only for a non-empty tune. */
  function TuneArgs(tune: string): seq<string> {
    if tune != "" then ["-tune", tune] else []
  }

  /** The ffmpeg argument list in the order of lines 229-269. */
  function FfmpegArgs(mediaFile: string, filterChain: seq<string>, settings: EncodeSettings,
                      threads: int, tempVideo: string): seq<string> {
    InputArgs(mediaFile) + FilterArgs(filterChain) + EncoderArgs(settings, threads) + SpeedArgs(settings)
      + settings.options + TuneArgs(settings.tune) + Words(settings.customParams) + [tempVideo]
  }

  /** The ffmpeg argument list of lines 229-269, built by appending as the
      source does: the input, the filter pair, the encoder flags, the speed
      pair, the encoder options, the tune pair, the words of the custom
      parameters (skipped when they strip to nothing) and, last, the
      scratch output. */
  method BuildFfmpegCommand(mediaFile: string, filterChain: seq<string>, settings: EncodeSettings,
                            threads: int, tempVideo: string)
    returns (cmd: seq<string>)
    ensures cmd == FfmpegArgs(mediaFile, filterChain, settings, threads, tempVideo)
  {
    cmd := ["ffmpeg", "-y", "-i", mediaFile];
    if filterChain != [] {
      cmd := cmd + ["-vf", Join(filterChain, ",")];
    }
    assert cmd == InputArgs(mediaFile) + FilterArgs(filterChain);
    cmd := cmd + ["-map", "v:0", "-c:v", EncoderName(settings.codec),
                  "-crf", settings.quality, "-threads", IntToString(threads)];
    cmd := cmd + [SpeedFlag(settings.codec), settings.speed];
    cmd := cmd + settings.options;
    ghost var upToOptions := cmd;
    if settings.tune != "" {
      cmd := cmd + ["-tune", settings.tune];
    }
    assert cmd == upToOptions + TuneArgs(settings.tune);
    ghost var upToTune := cmd;
    if Strip(settings.customParams) != "" {
      cmd := cmd + Words(settings.customParams);
    } else {
      BlankHasNoWords(settings.customParams);
      assert cmd == upToTune + Words(settings.customParams);
    }
    cmd := cmd + [tempVideo];
  }

  /** Where each part of the ffmpeg argument list sits: the command starts
      with the input, '-vf' is the fifth argument exactly when there is a
      filter chain, the encoder and speed flags follow at fixed offsets, the
      user's words sit after every fixed flag, and the scratch output is last. */
  lemma FfmpegLayout(mediaFile: string, filterChain: seq<string>, settings: EncodeSettings,
                     threads: int, tempVideo: string)
    ensures var cmd := FfmpegArgs(mediaFile, filterChain, settings, threads, tempVideo);
      var k := if filterChain == [] then 4 else 6;
      var o := k + 10 + |settings.options|;
      var c := o + (if settings.tune != "" then 2 else 0);
      && |cmd| == c + |Words(settings.customParams)| + 1
      && cmd[..4] == ["ffmpeg", "-y", "-i", mediaFile]
      && (cmd[4] == "-vf" <==> filterChain != [])
      && (filterChain != [] ==> cmd[5] == Join(filterChain, ","))
      && cmd[k..k + 8] == ["-map", "v:0", "-c:v", EncoderName(settings.codec),
                           "-crf", settings.quality, "-threads", IntToString(threads)]
      && cmd[k + 8] == SpeedFlag(settings.codec) && cmd[k + 9] == settings.speed
      && cmd[k + 10..o] == settings.options
      && (settings.tune != "" ==> cmd[o] == "-tune" && cmd[o + 1] == settings.tune)
      && cmd[c..|cmd| - 1] == Words(settings.customParams)
      && cmd[|cmd| - 1] == tempVideo
  {
    var cmd := FfmpegArgs(mediaFile, filterChain, settings, threads, tempVideo);
    var input, filter := InputArgs(mediaFile), FilterArgs(filterChain);
    var enc, speed := EncoderArgs(settings, threads), SpeedArgs(settings);
    PlaceOfParts(input, filter, enc, speed, settings.options, TuneArgs(settings.tune),
                 Words(settings.customParams), tempVideo, cmd);
    var k := if filterChain == [] then 4 else 6;
    var o := k + 10 + |settings.options|;
    var c := o + (if settings.tune != "" then 2 else 0);
    assert |input| == 4 && |filter| == k - 4 && |enc| == 8 && |speed| == 2;
    assert |TuneArgs(settings.tune)| == c - o;
    assert cmd[..4] == input;
    assert "-map" != "-vf";
    if filterChain != [] {
      assert cmd[4] == filter[0] && cmd[5] == filter[1];
    } else {
      assert cmd[4] == enc[0];
    }
    assert cmd[k..k + 8] == enc;
    assert cmd[k + 8] == speed[0] && cmd[k + 9] == speed[1];
    assert cmd[k + 10..o] == settings.options;
    if settings.tune != "" {
      assert cmd[o] == TuneArgs(settings.tune)[0] && cmd[o + 1] == TuneArgs(settings.tune)[1];
    }
    assert cmd[c..|cmd| - 1] == Words(settings.customParams);
  }

  /** Where each appended part of an argument list ends up. */
  lemma PlaceOfParts(input: seq<string>, filter: seq<string>, enc: seq<string>, speed: seq<string>,
                     options: seq<string>, tune: seq<string>, words: seq<string>, last: string,
                     cmd: seq<string>)
    requires cmd == input + filter + enc + speed + options + tune + words + [last]
    ensures var a := |input|;
      var b := a + |filter|;
      var c := b + |enc|;
      var d := c + |speed|;
      var e := d + |options|;
      var f := e + |tune|;
      && |cmd| == f + |words| + 1
      && cmd[..a] == input && cmd[a..b] == filter && cmd[b..c] == enc && cmd[c..d] == speed
      && cmd[d..e] == options && cmd[e..f] == tune && cmd[f..|cmd| - 1] == words
      && cmd[|cmd| - 1] == last
  {
  }

  /** A parameter string that strips to nothing has no words, so skipping
      it (line 264) and appending its words agree. */
  lemma BlankHasNoWords(s: string)
    requires Strip(s) == ""
    ensures Words(s) == []
  {
    var u := TrimStart(s, Whitespace);
    assert TrimEnd(u, Whitespace) == "";
    forall i | 0 <= i < |s| ensures s[i] in Whitespace {
      if i >= |s| - |u| {
        assert s[i] == u[i - (|s| - |u|)];
      }
    }
    WordsOfBlank(s);
  }

  /** The mkvmerge argument list of lines 279-284: write the scratch file
      `tempFile` from the encoded video and every non-video stream of the
      original. */
  function MkvmergeArgs(tempFile: string, tempVideo: string, mediaFile: string): (args: seq<string>)
    ensures |args| == 6
    ensures args[0] == "mkvmerge" && args[1] == "-o" && args[2] == tempFile
    ensures args[3] == tempVideo && args[4] == "--no-video" && args[5] == mediaFile
  {
    ["mkvmerge", "-o", tempFile, tempVideo, "--no-video", mediaFile]
  }
}
