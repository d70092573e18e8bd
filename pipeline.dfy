/** One file through the encoder (`encode_single_video_file`): the crop and
    codec decisions, the probe and scan tools, the ffmpeg and mkvmerge runs
    and the clean-up and rename that follow them, recorded as a trace of
    the external effects in the order they happen. What the tools and the
    filesystem answer is given as input. */
module Pipeline {
  import opened Common
  import opened Text
  import opened Paths
  import opened Geometry
  import opened EncodeParams
  import opened Command
  import opened Filename

  /** The configuration entries the function reads. `limitResolution` is
      None when the entry is falsy and otherwise the text it prints as. */
  datatype Config = Config(
    cropValues: string,
    limitResolution: Option<string>,
    outputCodec: string,
    quality: string,
    speed: string,
    tune: string,
    customParams: string)

  /** What the outside world answers during one run. */
  datatype World = World(
    probeExit: int, probeOut: string,   // the probe tool's exit code and output
    scan: Option<string>,               // the scan tool's output, None when it failed
    ffmpegOk: bool, mkvmergeOk: bool,   // whether each `check=True` run succeeded
    cores: nat,                         // `os.cpu_count()`
    initialSize: nat, resultingSize: nat)

  /** One external effect. */
  datatype Step =
    | Probe(file: string)
    | Scan(file: string)
    | RunFfmpeg(args: seq<string>)
    | RunMkvmerge(args: seq<string>)
    | Remove(path: string)
    | Rename(from: string, to: string)

  /** Why the function raised. */
  datatype Failure =
    | BadCropValues   // line 116: the crop entry is not four integers
    | UnknownCodec    // line 165: the codec name is not a key of the map
    | ProbeFailed     // line 202: no dimensions, and cropping needs them
    | EncodeFailed    // line 271
    | RemuxFailed     // line 286

  datatype Encoded = Encoded(name: string, initialSize: nat, resultingSize: nat)

  datatype Run = Run(trace: seq<Step>, outcome: Result<Encoded, Failure>)

  /** How the crop entry was read (lines 110-119). */
  datatype CropPlan = NoCrop | AutoDetect | Fixed(box: Crop)

  /** The crop entry: "auto" asks for the scan, any other non-empty text
      must be four comma-separated integers, the empty text means no crop. */
  function CropPlanFor(cropValues: string): (p: Option<CropPlan>)
    ensures p == Some(AutoDetect) <==> cropValues == "auto"
    ensures p == Some(NoCrop) <==> cropValues == ""
    ensures (exists c :: p == Some(Fixed(c))) <==>
      cropValues != "auto" && cropValues != "" && ParseCrop(cropValues).Some?
  {
    if cropValues == "auto" then Some(AutoDetect)
    else if cropValues != "" then
      match ParseCrop(cropValues)
      case Some(c) => Some(Fixed(c))
      case None => None
    else Some(NoCrop)
  }

  /** The crop box used by the filter, once the scan (if any) has answered:
      the auto box is `auto_crop`'s string read back (line 201). */
  function CropBoxFor(plan: CropPlan, scan: Option<string>): Option<Crop> {
    match plan
    case NoCrop => None
    case AutoDetect => ParseCrop(AutoCrop(scan))
    case Fixed(c) => Some(c)
  }

  function MediaFile(dirpath: string, inputFile: string): string {
    PathJoin(dirpath, inputFile)
  }

  function TempVideoFile(dirpath: string, inputFile: string): string {
    PathJoin(dirpath, "temp_video_" + Basename(inputFile))
  }

  function TempFile(dirpath: string, inputFile: string): string {
    PathJoin(dirpath, "temp_" + Basename(inputFile))
  }

  function SettingsFor(cfg: Config, e: Encoder): EncodeSettings {
    EncodeSettings(e, cfg.quality, cfg.speed, cfg.tune, cfg.customParams, TunedOptions(e))
  }

  /** The two tool runs and what follows them: ffmpeg, then mkvmerge when
      ffmpeg succeeded, then, when both succeeded, the removal of the
      scratch video and of the original and the rename of the merged file
      to `target`. */
  function ToolRuns(ffmpegArgs: seq<string>, mkvmergeArgs: seq<string>, tempVideo: string,
                    media: string, temp: string, target: string, result: Encoded, w: World): Run
  {
    var encode := [RunFfmpeg(ffmpegArgs)];
    var remux := encode + [RunMkvmerge(mkvmergeArgs)];
    if !w.ffmpegOk then Run(encode, Err(EncodeFailed))
    else if !w.mkvmergeOk then Run(remux, Err(RemuxFailed))
    else Run(remux + [Remove(tempVideo), Remove(media), Rename(temp, target)], Ok(result))
  }

  /** The ffmpeg argument list of one file. */
  function FfmpegArgsFor(cfg: Config, e: Encoder, box: Option<Crop>, inputFile: string,
                         dirpath: string, threads: int): seq<string>
  {
    FfmpegArgs(MediaFile(dirpath, inputFile), FilterChain(box, cfg.limitResolution), SettingsFor(cfg, e),
               threads, TempVideoFile(dirpath, inputFile))
  }

  /** The effects from the encode on, once the crop box is known. */
  function EncodeAndReplace(cfg: Config, e: Encoder, box: Option<Crop>, inputFile: string,
                            dirpath: string, threads: int, w: World): Run
  {
    var media := MediaFile(dirpath, inputFile);
    var tempVideo := TempVideoFile(dirpath, inputFile);
    var temp := TempFile(dirpath, inputFile);
    var name := CleanName(inputFile, e);
    ToolRuns(FfmpegArgsFor(cfg, e, box, inputFile, dirpath, threads),
             MkvmergeArgs(temp, tempVideo, media), tempVideo, media, temp, PathJoin(dirpath, name),
             Encoded(name, w.initialSize, w.resultingSize), w)
  }

  /** The probe, then the scan for "auto"; when cropping is on and the
      probe gave no dimensions the run ends there, otherwise the encode
      stage `rest` follows. */
  function AfterProbe(plan: CropPlan, probeOk: bool, media: string, rest: Run): Run {
    var probed := [Probe(media)] + (if plan == AutoDetect then [Scan(media)] else []);
    if plan != NoCrop && !probeOk then Run(probed, Err(ProbeFailed))
    else Run(probed + rest.trace, rest.outcome)
  }

  /** The effects once the codec is known. */
  function ProbeAndEncode(cfg: Config, plan: CropPlan, e: Encoder, inputFile: string,
                          dirpath: string, pct: real, w: World): Run
  {
    AfterProbe(plan, ParseProbeOutput(w.probeExit, w.probeOut).Some?, MediaFile(dirpath, inputFile),
               EncodeAndReplace(cfg, e, CropBoxFor(plan, w.scan), inputFile, dirpath,
                                ThreadCount(w.cores, pct, e), w))
  }

  /** The whole run of `encode_single_video_file` for one file. */
  function EncodeFileRun(cfg: Config, inputFile: string, dirpath: string, pct: real, w: World): Run {
    match CropPlanFor(cfg.cropValues)
    case None => Run([], Err(BadCropValues))
    case Some(plan) =>
      match CodecFor(cfg.outputCodec)
      case None => Run([], Err(UnknownCodec))
      case Some(e) => ProbeAndEncode(cfg, plan, e, inputFile, dirpath, pct, w)
  }

  /** `encode_single_video_file` step by step, recording each external
      effect as it happens. */
  method EncodeSingleVideoFile(cfg: Config, inputFile: string, dirpath: string, pct: real, w: World)
    returns (trace: seq<Step>, outcome: Result<Encoded, Failure>)
    ensures Run(trace, outcome) == EncodeFileRun(cfg, inputFile, dirpath, pct, w)
  {
    var plan := CropPlanFor(cfg.cropValues);
    if plan.None? {
      return [], Err(BadCropValues);
    }
    var codec := CodecFor(cfg.outputCodec);
    if codec.None? {
      return [], Err(UnknownCodec);
    }
    trace, outcome := ProbeThenEncode(cfg, plan.value, codec.value, inputFile, dirpath, pct, w);
  }

  /** Lines 171-206: the psy-rd tweak, the thread count, the probe and, for
      "auto", the scan. */
  method ProbeThenEncode(cfg: Config, plan: CropPlan, e: Encoder, inputFile: string,
                         dirpath: string, pct: real, w: World)
    returns (trace: seq<Step>, outcome: Result<Encoded, Failure>)
    ensures Run(trace, outcome) == ProbeAndEncode(cfg, plan, e, inputFile, dirpath, pct, w)
  {
    var media := PathJoin(dirpath, inputFile);
    var settings := EncoderSettings(cfg, e);
    var threads := ThreadCount(w.cores, pct, e);

    var box;
    trace, box := ProbeAndScan(plan, media, w);
    if plan != NoCrop && ParseProbeOutput(w.probeExit, w.probeOut).None? {
      return trace, Err(ProbeFailed);
    }
    var rest;
    rest, outcome := EncodeThenReplace(cfg, settings, box, inputFile, dirpath, threads, w);
    ghost var stage := EncodeAndReplace(cfg, e, box, inputFile, dirpath, threads, w);
    assert ProbeAndEncode(cfg, plan, e, inputFile, dirpath, pct, w)
        == AfterProbe(plan, ParseProbeOutput(w.probeExit, w.probeOut).Some?, media, stage);
    trace := trace + rest;
  }

  /** Lines 163-179: the settings read from the configuration and the
      encoder's option bundle with its psy-rd tweak applied. */
  method EncoderSettings(cfg: Config, e: Encoder) returns (settings: EncodeSettings)
    ensures settings == SettingsFor(cfg, e)
  {
    var tuned := TunePsyRd(e, BaseOptions(e));
    TunePsyRdOnBundles(e, tuned);
    settings := EncodeSettings(e, cfg.quality, cfg.speed, cfg.tune, cfg.customParams, tuned.value);
  }

  /** Lines 196-201: the probe runs, then the scan for "auto"; the crop box
      is the configured one or `auto_crop`'s answer read back. */
  method ProbeAndScan(plan: CropPlan, media: string, w: World) returns (trace: seq<Step>, box: Option<Crop>)
    ensures trace == [Probe(media)] + (if plan == AutoDetect then [Scan(media)] else [])
    ensures box == CropBoxFor(plan, w.scan)
  {
    trace := [Probe(media)];
    box := None;
    if plan == AutoDetect {
      trace := trace + [Scan(media)];
      box := ParseCrop(AutoCrop(w.scan));
    } else if plan.Fixed? {
      box := Some(plan.box);
    }
  }

  /** Lines 215-320: the filter chain and the ffmpeg command, the two tool
      runs, the clean-up and the rename. */
  method EncodeThenReplace(cfg: Config, settings: EncodeSettings, box: Option<Crop>, inputFile: string,
                           dirpath: string, threads: int, w: World)
    returns (trace: seq<Step>, outcome: Result<Encoded, Failure>)
    requires settings == SettingsFor(cfg, settings.codec)
    ensures Run(trace, outcome) == EncodeAndReplace(cfg, settings.codec, box, inputFile, dirpath, threads, w)
  {
    var media := PathJoin(dirpath, inputFile);
    var chain := BuildFilterChain(box, cfg.limitResolution);
    var tempVideo := PathJoin(dirpath, "temp_video_" + Basename(inputFile));
    var temp := PathJoin(dirpath, "temp_" + Basename(inputFile));
    var cmd := BuildFfmpegCommand(media, chain, settings, threads, tempVideo);
    trace := [RunFfmpeg(cmd)];
    if !w.ffmpegOk {
      return trace, Err(EncodeFailed);
    }
    trace := trace + [RunMkvmerge(MkvmergeArgs(temp, tempVideo, media))];
    if !w.mkvmergeOk {
      return trace, Err(RemuxFailed);
    }
    var name := CleanedFilename(inputFile, settings.codec);
    trace := trace + [Remove(tempVideo), Remove(media), Rename(temp, PathJoin(dirpath, name))];
    outcome := Ok(Encoded(name, w.initialSize, w.resultingSize));
  }

  // ---------------------------------------------------------------------
  // Properties of a run
  // ---------------------------------------------------------------------

  /** A malformed crop entry fails first, before any tool runs; with a
      readable crop entry, an unknown codec name fails next, also before any
      tool runs; otherwise the probe is the first effect. */
  lemma ConfigurationErrorsRunNoTool(cfg: Config, inputFile: string, dirpath: string, pct: real, w: World)
    ensures var r := EncodeFileRun(cfg, inputFile, dirpath, pct, w);
      && (r.outcome == Err(BadCropValues) <==> CropPlanFor(cfg.cropValues).None?)
      && (r.outcome == Err(UnknownCodec) <==>
            CropPlanFor(cfg.cropValues).Some? && CodecFor(cfg.outputCodec).None?)
      && (r.outcome == Err(BadCropValues) || r.outcome == Err(UnknownCodec) <==> r.trace == [])
      && (r.trace != [] ==> r.trace[0] == Probe(MediaFile(dirpath, inputFile)))
  {
    if CropPlanFor(cfg.cropValues).Some? && CodecFor(cfg.outputCodec).Some? {
      var plan, e := CropPlanFor(cfg.cropValues).value, CodecFor(cfg.outputCodec).value;
      var media := MediaFile(dirpath, inputFile);
      var rest := EncodeAndReplace(cfg, e, CropBoxFor(plan, w.scan), inputFile, dirpath,
                                   ThreadCount(w.cores, pct, e), w);
      var probeOk := ParseProbeOutput(w.probeExit, w.probeOut).Some?;
      assert EncodeFileRun(cfg, inputFile, dirpath, pct, w) == AfterProbe(plan, probeOk, media, rest);
      ProbeStage(plan, probeOk, media, rest);
    }
  }

  /** The probe stage: the probe is the first effect, and the outcome is
      ProbeFailed exactly when cropping is on and the probe failed;
      otherwise it is the encode stage's. */
  lemma ProbeStage(plan: CropPlan, probeOk: bool, media: string, rest: Run)
    ensures var r := AfterProbe(plan, probeOk, media, rest);
      var k := if plan == AutoDetect then 2 else 1;
      && |r.trace| >= k && r.trace[0] == Probe(media)
      && (plan != NoCrop && !probeOk ==> r == Run(r.trace[..k], Err(ProbeFailed)))
      && (plan == NoCrop || probeOk ==> r.outcome == rest.outcome && r.trace[k..] == rest.trace)
      && (forall i :: 0 <= i < k ==> r.trace[i].Probe? || r.trace[i].Scan?)
  {
  }

  /** ffmpeg runs first; mkvmerge runs only after ffmpeg succeeded; the
      two removals and the rename happen only after both succeeded, and
      exactly then the run succeeds. */
  lemma ToolRunOrder(ffmpegArgs: seq<string>, mkvmergeArgs: seq<string>, tempVideo: string,
                     media: string, temp: string, target: string, result: Encoded, w: World)
    ensures var r := ToolRuns(ffmpegArgs, mkvmergeArgs, tempVideo, media, temp, target, result, w);
      && 1 <= |r.trace| && r.trace[0] == RunFfmpeg(ffmpegArgs)
      && (forall i :: 1 <= i < |r.trace| ==> !r.trace[i].RunFfmpeg?)
      && (r.outcome == Ok(result) <==> w.ffmpegOk && w.mkvmergeOk)
      && (r.outcome == Err(EncodeFailed) <==> !w.ffmpegOk)
      && (r.outcome == Err(RemuxFailed) <==> w.ffmpegOk && !w.mkvmergeOk)
      && (r.outcome.Err? ==> r.outcome != Err(ProbeFailed))
      && (forall i :: 0 <= i < |r.trace| && r.trace[i].Remove? ==>
            r.outcome.Ok? && i >= 2 && r.trace[1] == RunMkvmerge(mkvmergeArgs))
      && (r.outcome.Ok? ==>
            |r.trace| == 5 && r.trace[3] == Remove(media) && r.trace[4] == Rename(temp, target))
  {
  }

  /** A run with a readable configuration is the probe stage followed by
      the tool runs on this file's paths, command and cleaned name. */
  lemma RunStages(cfg: Config, inputFile: string, dirpath: string, pct: real, w: World)
    requires CropPlanFor(cfg.cropValues).Some? && CodecFor(cfg.outputCodec).Some?
    ensures var plan, e := CropPlanFor(cfg.cropValues).value, CodecFor(cfg.outputCodec).value;
      var name := CleanName(inputFile, e);
      var media, tempVideo, temp := MediaFile(dirpath, inputFile), TempVideoFile(dirpath, inputFile), TempFile(dirpath, inputFile);
      EncodeFileRun(cfg, inputFile, dirpath, pct, w)
        == AfterProbe(plan, ParseProbeOutput(w.probeExit, w.probeOut).Some?, media,
             ToolRuns(FfmpegArgsFor(cfg, e, CropBoxFor(plan, w.scan), inputFile, dirpath, ThreadCount(w.cores, pct, e)),
                      MkvmergeArgs(temp, tempVideo, media), tempVideo, media, temp, PathJoin(dirpath, name),
                      Encoded(name, w.initialSize, w.resultingSize), w))
  {
  }

  /** How a run with a readable configuration ends: a failed probe aborts
      it exactly when cropping is on; otherwise it succeeds exactly when
      both tools succeed, with the cleaned name as its result and the
      rename of the merged file to that name as its last effect. */
  lemma RunOutcomes(cfg: Config, inputFile: string, dirpath: string, pct: real, w: World)
    requires CropPlanFor(cfg.cropValues).Some? && CodecFor(cfg.outputCodec).Some?
    ensures var r := EncodeFileRun(cfg, inputFile, dirpath, pct, w);
      var plan, e := CropPlanFor(cfg.cropValues).value, CodecFor(cfg.outputCodec).value;
      var probeOk := ParseProbeOutput(w.probeExit, w.probeOut).Some?;
      var name := CleanName(inputFile, e);
      && (r.outcome == Err(ProbeFailed) <==> plan != NoCrop && !probeOk)
      && (r.outcome == Ok(Encoded(name, w.initialSize, w.resultingSize)) <==>
            (plan == NoCrop || probeOk) && w.ffmpegOk && w.mkvmergeOk)
      && (r.outcome.Ok? ==>
            r.trace[|r.trace| - 1] == Rename(TempFile(dirpath, inputFile), PathJoin(dirpath, name)))
  {
    var plan, e := CropPlanFor(cfg.cropValues).value, CodecFor(cfg.outputCodec).value;
    var name := CleanName(inputFile, e);
    var media, tempVideo, temp := MediaFile(dirpath, inputFile), TempVideoFile(dirpath, inputFile), TempFile(dirpath, inputFile);
    var args := FfmpegArgsFor(cfg, e, CropBoxFor(plan, w.scan), inputFile, dirpath, ThreadCount(w.cores, pct, e));
    RunStages(cfg, inputFile, dirpath, pct, w);
    OutcomesAfterTools(plan, ParseProbeOutput(w.probeExit, w.probeOut).Some?, media, args,
                       MkvmergeArgs(temp, tempVideo, media), tempVideo, temp, PathJoin(dirpath, name),
                       Encoded(name, w.initialSize, w.resultingSize), w);
  }

  /** The outcome facts for any probe stage followed by any tool runs. */
  lemma OutcomesAfterTools(plan: CropPlan, probeOk: bool, media: string, ffmpegArgs: seq<string>,
                           mkvmergeArgs: seq<string>, tempVideo: string, temp: string, target: string,
                           result: Encoded, w: World)
    ensures var r := AfterProbe(plan, probeOk, media,
                                ToolRuns(ffmpegArgs, mkvmergeArgs, tempVideo, media, temp, target, result, w));
      && (r.outcome == Err(ProbeFailed) <==> plan != NoCrop && !probeOk)
      && (r.outcome == Ok(result) <==> (plan == NoCrop || probeOk) && w.ffmpegOk && w.mkvmergeOk)
      && (r.outcome.Ok? ==> r.trace[|r.trace| - 1] == Rename(temp, target))
  {
    var rest := ToolRuns(ffmpegArgs, mkvmergeArgs, tempVideo, media, temp, target, result, w);
    ProbeStage(plan, probeOk, media, rest);
    ToolRunOrder(ffmpegArgs, mkvmergeArgs, tempVideo, media, temp, target, result, w);
    var r := AfterProbe(plan, probeOk, media, rest);
    if r.outcome.Ok? {
      var k := if plan == AutoDetect then 2 else 1;
      assert r.trace[|r.trace| - 1] == r.trace[k..][|rest.trace| - 1];
    }
  }

  /** Nothing in `r` is removed unless ffmpeg and then mkvmerge both
      succeeded, and a successful `r` has removed `media`. */
  ghost predicate RemovalsSafe(r: Run, w: World, media: string) {
    && (forall i :: 0 <= i < |r.trace| && r.trace[i].Remove? ==>
          && r.outcome.Ok? && w.ffmpegOk && w.mkvmergeOk
          && exists j :: 0 <= j && j + 1 < i && r.trace[j].RunFfmpeg? && r.trace[j + 1].RunMkvmerge?)
    && (r.outcome.Ok? ==> Remove(media) in r.trace)
  }

  /** Nothing is removed unless ffmpeg and then mkvmerge both succeeded
      (the runs of lines 271 and 286 come before the removals of lines
      294-295), and a successful run has removed the original. */
  lemma RemovalsFollowBothTools(cfg: Config, inputFile: string, dirpath: string, pct: real, w: World)
    ensures RemovalsSafe(EncodeFileRun(cfg, inputFile, dirpath, pct, w), w, MediaFile(dirpath, inputFile))
  {
    if CropPlanFor(cfg.cropValues).Some? && CodecFor(cfg.outputCodec).Some? {
      RemovalsWithReadableConfig(cfg, inputFile, dirpath, pct, w);
    } else {
      ConfigurationErrorsRunNoTool(cfg, inputFile, dirpath, pct, w);
    }
  }

  lemma RemovalsWithReadableConfig(cfg: Config, inputFile: string, dirpath: string, pct: real, w: World)
    requires CropPlanFor(cfg.cropValues).Some? && CodecFor(cfg.outputCodec).Some?
    ensures RemovalsSafe(EncodeFileRun(cfg, inputFile, dirpath, pct, w), w, MediaFile(dirpath, inputFile))
  {
    var plan, e := CropPlanFor(cfg.cropValues).value, CodecFor(cfg.outputCodec).value;
    var probeOk := ParseProbeOutput(w.probeExit, w.probeOut).Some?;
    var name := CleanName(inputFile, e);
    var media, tempVideo, temp := MediaFile(dirpath, inputFile), TempVideoFile(dirpath, inputFile), TempFile(dirpath, inputFile);
    var args := FfmpegArgsFor(cfg, e, CropBoxFor(plan, w.scan), inputFile, dirpath, ThreadCount(w.cores, pct, e));
    var result := Encoded(name, w.initialSize, w.resultingSize);
    RunStages(cfg, inputFile, dirpath, pct, w);
    RemovalsAfterTools(plan, probeOk, media, args, MkvmergeArgs(temp, tempVideo, media), tempVideo, temp,
                       PathJoin(dirpath, name), result, w);
  }

  /** The removal facts for any probe stage followed by any tool runs. */
  lemma RemovalsAfterTools(plan: CropPlan, probeOk: bool, media: string, ffmpegArgs: seq<string>,
                           mkvmergeArgs: seq<string>, tempVideo: string, temp: string, target: string,
                           result: Encoded, w: World)
    ensures RemovalsSafe(AfterProbe(plan, probeOk, media,
                           ToolRuns(ffmpegArgs, mkvmergeArgs, tempVideo, media, temp, target, result, w)), w, media)
  {
    ToolRunOrder(ffmpegArgs, mkvmergeArgs, tempVideo, media, temp, target, result, w);
    RemovalsInStages(plan, probeOk, media, ToolRuns(ffmpegArgs, mkvmergeArgs, tempVideo, media, temp, target, result, w), w);
  }

  /** The removal facts on the stages: removals sit in the encode stage,
      after its ffmpeg and mkvmerge steps. */
  lemma RemovalsInStages(plan: CropPlan, probeOk: bool, media: string, rest: Run, w: World)
    requires 1 <= |rest.trace| && rest.trace[0].RunFfmpeg?
    requires forall i :: 0 <= i < |rest.trace| && rest.trace[i].Remove? ==>
      rest.outcome.Ok? && w.ffmpegOk && w.mkvmergeOk && i >= 2 && rest.trace[1].RunMkvmerge?
    requires rest.outcome.Ok? ==> |rest.trace| >= 4 && rest.trace[3] == Remove(media)
    ensures RemovalsSafe(AfterProbe(plan, probeOk, media, rest), w, media)
  {
    var r := AfterProbe(plan, probeOk, media, rest);
    ProbeStage(plan, probeOk, media, rest);
    var k := if plan == AutoDetect then 2 else 1;
    if plan != NoCrop && !probeOk {
      assert forall i :: 0 <= i < |r.trace| ==> !r.trace[i].Remove?;
    } else {
      forall i | 0 <= i < |r.trace| && r.trace[i].Remove?
        ensures r.outcome.Ok? && w.ffmpegOk && w.mkvmergeOk
        ensures exists j :: 0 <= j && j + 1 < i && r.trace[j].RunFfmpeg? && r.trace[j + 1].RunMkvmerge?
      {
        assert r.trace[k..][i - k] == rest.trace[i - k];
        assert r.trace[k] == rest.trace[0] && r.trace[k + 1] == rest.trace[1];
      }
      if r.outcome.Ok? {
        assert r.trace[k + 3] == rest.trace[3];
      }
    }
  }

  /** Without cropping the probe's answer does not matter: the run is the
      same whatever the probe printed or returned. */
  lemma ProbeIgnoredWithoutCrop(cfg: Config, inputFile: string, dirpath: string, pct: real, w: World,
                                exitCode: int, stdout: string)
    requires cfg.cropValues == ""
    ensures EncodeFileRun(cfg, inputFile, dirpath, pct, w)
         == EncodeFileRun(cfg, inputFile, dirpath, pct, w.(probeExit := exitCode, probeOut := stdout))
  {
    var w' := w.(probeExit := exitCode, probeOut := stdout);
    if CodecFor(cfg.outputCodec).Some? {
      var e := CodecFor(cfg.outputCodec).value;
      var name := CleanName(inputFile, e);
      var media, tempVideo, temp := MediaFile(dirpath, inputFile), TempVideoFile(dirpath, inputFile), TempFile(dirpath, inputFile);
      var args := FfmpegArgsFor(cfg, e, None, inputFile, dirpath, ThreadCount(w.cores, pct, e));
      var result := Encoded(name, w.initialSize, w.resultingSize);
      var rest := ToolRuns(args, MkvmergeArgs(temp, tempVideo, media), tempVideo, media, temp, PathJoin(dirpath, name), result, w);
      assert rest == ToolRuns(args, MkvmergeArgs(temp, tempVideo, media), tempVideo, media, temp, PathJoin(dirpath, name), result, w');
      RunStages(cfg, inputFile, dirpath, pct, w);
      RunStages(cfg, inputFile, dirpath, pct, w');
      assert AfterProbe(NoCrop, ParseProbeOutput(w.probeExit, w.probeOut).Some?, media, rest)
          == AfterProbe(NoCrop, ParseProbeOutput(exitCode, stdout).Some?, media, rest);
    }
  }

  /** The ffmpeg command of a file: it starts with the input, '-vf' is its
      fifth argument exactly when there is a filter, and the scratch video
      is its last argument. */
  lemma FfmpegArgsShape(cfg: Config, e: Encoder, box: Option<Crop>, inputFile: string,
                        dirpath: string, threads: int)
    ensures var args := FfmpegArgsFor(cfg, e, box, inputFile, dirpath, threads);
      && |args| >= 5
      && args[..4] == ["ffmpeg", "-y", "-i", MediaFile(dirpath, inputFile)]
      && (args[4] == "-vf" <==> box.Some? || cfg.limitResolution.Some?)
      && args[|args| - 1] == TempVideoFile(dirpath, inputFile)
  {
    FfmpegLayout(MediaFile(dirpath, inputFile), FilterChain(box, cfg.limitResolution), SettingsFor(cfg, e),
                 threads, TempVideoFile(dirpath, inputFile));
  }

  /** The one ffmpeg run of a file reads the original, writes the scratch
      video, and filters ('-vf') exactly when cropping or a resolution
      limit is configured. */
  lemma FfmpegRunOfFile(cfg: Config, inputFile: string, dirpath: string, pct: real, w: World)
    ensures var r := EncodeFileRun(cfg, inputFile, dirpath, pct, w);
      forall i :: 0 <= i < |r.trace| && r.trace[i].RunFfmpeg? ==>
        var args := r.trace[i].args;
        && |args| >= 5
        && args[..4] == ["ffmpeg", "-y", "-i", MediaFile(dirpath, inputFile)]
        && (args[4] == "-vf" <==> cfg.cropValues != "" || cfg.limitResolution.Some?)
        && args[|args| - 1] == TempVideoFile(dirpath, inputFile)
  {
    var r := EncodeFileRun(cfg, inputFile, dirpath, pct, w);
    if CropPlanFor(cfg.cropValues).Some? && CodecFor(cfg.outputCodec).Some? {
      var plan, e := CropPlanFor(cfg.cropValues).value, CodecFor(cfg.outputCodec).value;
      OnlyFfmpegRun(cfg, inputFile, dirpath, pct, w);
      FfmpegArgsOfPlan(cfg, plan, e, w.scan, inputFile, dirpath, ThreadCount(w.cores, pct, e));
    } else {
      ConfigurationErrorsRunNoTool(cfg, inputFile, dirpath, pct, w);
    }
  }

  /** The ffmpeg command's shape in terms of the configuration's crop entry. */
  lemma FfmpegArgsOfPlan(cfg: Config, plan: CropPlan, e: Encoder, scan: Option<string>, inputFile: string,
                         dirpath: string, threads: int)
    requires CropPlanFor(cfg.cropValues) == Some(plan)
    ensures var args := FfmpegArgsFor(cfg, e, CropBoxFor(plan, scan), inputFile, dirpath, threads);
      && |args| >= 5
      && args[..4] == ["ffmpeg", "-y", "-i", MediaFile(dirpath, inputFile)]
      && (args[4] == "-vf" <==> cfg.cropValues != "" || cfg.limitResolution.Some?)
      && args[|args| - 1] == TempVideoFile(dirpath, inputFile)
  {
    FfmpegArgsShape(cfg, e, CropBoxFor(plan, scan), inputFile, dirpath, threads);
    CropBoxPresence(cfg.cropValues, plan, scan);
  }

  /** A run's only ffmpeg run is the one with the file's command. */
  lemma OnlyFfmpegRun(cfg: Config, inputFile: string, dirpath: string, pct: real, w: World)
    requires CropPlanFor(cfg.cropValues).Some? && CodecFor(cfg.outputCodec).Some?
    ensures var r := EncodeFileRun(cfg, inputFile, dirpath, pct, w);
      var plan, e := CropPlanFor(cfg.cropValues).value, CodecFor(cfg.outputCodec).value;
      var args := FfmpegArgsFor(cfg, e, CropBoxFor(plan, w.scan), inputFile, dirpath, ThreadCount(w.cores, pct, e));
      forall i :: 0 <= i < |r.trace| && r.trace[i].RunFfmpeg? ==> r.trace[i] == RunFfmpeg(args)
  {
    var plan, e := CropPlanFor(cfg.cropValues).value, CodecFor(cfg.outputCodec).value;
    var probeOk := ParseProbeOutput(w.probeExit, w.probeOut).Some?;
    var name := CleanName(inputFile, e);
    var media, tempVideo, temp := MediaFile(dirpath, inputFile), TempVideoFile(dirpath, inputFile), TempFile(dirpath, inputFile);
    var args := FfmpegArgsFor(cfg, e, CropBoxFor(plan, w.scan), inputFile, dirpath, ThreadCount(w.cores, pct, e));
    var result := Encoded(name, w.initialSize, w.resultingSize);
    var rest := ToolRuns(args, MkvmergeArgs(temp, tempVideo, media), tempVideo, media, temp, PathJoin(dirpath, name), result, w);
    RunStages(cfg, inputFile, dirpath, pct, w);
    ToolRunOrder(args, MkvmergeArgs(temp, tempVideo, media), tempVideo, media, temp, PathJoin(dirpath, name), result, w);
    FfmpegInStages(plan, probeOk, media, rest, args);
  }

  /** The probe stage adds no ffmpeg run: every ffmpeg run of a run is the
      encode stage's one. */
  lemma FfmpegInStages(plan: CropPlan, probeOk: bool, media: string, rest: Run, args: seq<string>)
    requires 1 <= |rest.trace| && rest.trace[0] == RunFfmpeg(args)
    requires forall i :: 1 <= i < |rest.trace| ==> !rest.trace[i].RunFfmpeg?
    ensures var r := AfterProbe(plan, probeOk, media, rest);
      forall i :: 0 <= i < |r.trace| && r.trace[i].RunFfmpeg? ==> r.trace[i] == RunFfmpeg(args)
  {
    var r := AfterProbe(plan, probeOk, media, rest);
    ProbeStage(plan, probeOk, media, rest);
    var k := if plan == AutoDetect then 2 else 1;
    forall i | 0 <= i < |r.trace| && r.trace[i].RunFfmpeg?
      ensures r.trace[i] == RunFfmpeg(args)
    {
      assert i >= k && r.trace[k..][i - k] == rest.trace[i - k];
    }
  }

  /** A crop box reaches the filter exactly when the crop entry is not
      empty: the auto-crop string always reads back. */
  lemma CropBoxPresence(cropValues: string, plan: CropPlan, scan: Option<string>)
    requires CropPlanFor(cropValues) == Some(plan)
    ensures CropBoxFor(plan, scan).Some? <==> cropValues != ""
  {
    if plan == AutoDetect {
      AutoCropReparses(scan);
    }
  }
}
