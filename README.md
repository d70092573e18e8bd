# Media encoder and torrent copy helper, modelled in Dafny

This project models two parts of a home-media automation toolkit.

**The media encoder** (`modules/media_encoder.py`) turns each video of a folder into a smaller Matroska file. The model covers:

- **Reading the configuration:** the crop entry (`"auto"`, four integers, or nothing), the optional resolution limit, the codec name and the encoder option bundles.
- **Probing and cropping:** reading the probe tool's `<w>x<h>x` answer, and turning the scan tool's `+ autocrop:` line into a symmetric crop box rounded up to multiples of four.
- **Aspect-ratio padding:** the calculation that pads or scales a frame to a desired ratio.
- **The commands:** the thread count, the ffmpeg argument list (grown by appends, as the source grows it) and the mkvmerge argument list.
- **The per-file run:** its order of external effects, including the clean-up and the rename to a cleaned file name.
- **The batch:** worker planning, the per-file CPU share, results stored at their file's index in completion order, and the savings summary.

**The download helper** (`service/integrations/qbittorrent-automation/qbittorrent-automation.py`) copies completed torrents into folders chosen by tag, then tags them as done or failed. The model covers:

- **Paths:** Windows path normalisation, and translation through an insertion-ordered prefix table read from a mapping file.
- **Collecting torrents:** one query per target tag, then de-duplication by hash.
- **Tags:** choosing the destination tag.
- **The copy:** it never overwrites, and copies to a scratch name before renaming.
- **Marking:** the tag calls that record the outcome.
- **The main loop:** one pass of it.

The modules follow the program's structure.

| module | what it holds |
|---|---|
| `Common` | Option and Result types; Python's insertion-ordered `dict` as a sequence of pairs (`Put`, `FromPairs`) |
| `Text` | the string built-ins both programs use: `strip`/`lstrip`/`rstrip`, `split(c)`, `split()`, `join`, `int(...)`, `str(int)`, ASCII `lower`, case-insensitive `re.sub` of a literal |
| `Paths` | `os.path.join`, `basename`, `splitext` |
| `Geometry` | `get_video_dimensions`, `auto_crop`, `calculate_output_dimensions` |
| `EncodeParams` | codec map, option bundles, psy-rd tweak, speed flag, thread count |
| `Command` | filter chain, ffmpeg and mkvmerge argument lists |
| `Filename` | the cleaned output name |
| `Pipeline` | `encode_single_video_file` as a trace of external steps and an outcome |
| `Batch` | `encode_media_files` |
| `PathMapping` | `normalize_windows_path`, `translate_path`, `load_path_mappings` |
| `Torrents` | `get_completed_torrents`, `copy_torrent_content`, `mark_torrent_done`/`mark_torrent_failed`, one pass of `main` |

**How the outside world enters the model.** Every external tool, the file system and the torrent manager's API enter as parameters:

- A `World` value holds what the probe, the scan, ffmpeg and mkvmerge answer, the core count and the file sizes.
- An `FsView` holds which paths exist and which are folders or files.
- A sequence of optional answers holds the API's replies.

The effects a run has are returned as a trace (`Pipeline.Step`, `Torrents.Effect`), so their order can be stated and proved.

**Where the code differs from its description, the model follows the code:**

- **A failed probe matters only when cropping.** Without a crop entry the missing dimensions are never used, so the run goes on (`Pipeline.ProbeIgnoredWithoutCrop`).
- **Cleaning a file name is not idempotent.** Removing "REMUX" can create a codec marker, which a second cleaning replaces (`Filename.CleanNameNotIdempotent`).
- **An empty file list fails the batch.** It gives zero workers, and the CPU share divides by zero (`Batch.BatchFailure.NoWorkers`).
- **The h265 and h264 worker caps test the literal names only.** `"hevc"` is not capped.
- **A matched tag that is the empty string is treated as no match.** The copy is then skipped.
- **A repeated key keeps the position of its first occurrence.** This applies to the hash table and the mapping table, and the stored value is the last one.
- **A skipped copy marks the torrent failed**, exactly as a failed copy does.

## Model

| member | source | states |
|---|---|---|
| Common.Put | service/integrations/qbittorrent-automation/qbittorrent-automation.py:65 | dict assignment: an existing key keeps its place and takes the new value, a new key is appended, every other key keeps its value |
| Common.PutKeepsDistinct | service/integrations/qbittorrent-automation/qbittorrent-automation.py:65 | assignment never creates a duplicate key |
| Common.FromPairsSpec | service/integrations/qbittorrent-automation/qbittorrent-automation.py:120 | a dict built from pairs has each key once, exactly the pairs' keys, and each key maps to its last pair's value |
| Common.FromPairsSnoc | service/integrations/qbittorrent-automation/qbittorrent-automation.py:65 | adding one more pair is one more assignment |
| Text.TrimStart | service/integrations/qbittorrent-automation/qbittorrent-automation.py:142 | `lstrip`: the longest suffix not starting with a stripped character, everything dropped being strippable |
| Text.TrimEnd | service/integrations/qbittorrent-automation/qbittorrent-automation.py:129 | `rstrip`: the longest prefix not ending with a stripped character, everything dropped being strippable |
| Text.LowerFacts | service/integrations/qbittorrent-automation/qbittorrent-automation.py:129 | folding leaves no upper-case letter and leaves a folded string as it is |
| Text.SplitJoin | modules/media_encoder.py:201 | splitting a joined list at a separator no element contains gives the list back |
| Text.ParseIntToString | modules/media_encoder.py:201 | `int(str(n)) == n` for every integer |
| Text.Words | modules/media_encoder.py:266 | `split()` yields only non-empty words without whitespace |
| Text.WordsCoverText | modules/media_encoder.py:264-266 | the words put back together are exactly the non-whitespace characters, in order |
| Text.ReplaceWithoutMatch | modules/media_encoder.py:311-313 | a case-insensitive substitution with no match leaves the text unchanged |
| Text.ReplaceFirstMatch | modules/media_encoder.py:311-313 | the first occurrence of the marker in any mix of case is replaced, the text before it is kept, and the substitution resumes after it, so matches never overlap |
| Paths.PathJoin | service/integrations/qbittorrent-automation/qbittorrent-automation.py:143 | an absolute second part replaces the first; otherwise the parts are concatenated, with a '/' added exactly when the first part is non-empty and does not end in '/' |
| Paths.Basename | modules/media_encoder.py:227 | the suffix after the last '/', containing no '/' |
| Paths.StemOfExtended | modules/media_encoder.py:309 | `splitext` drops exactly a trailing extension from a name that is not all dots |
| Geometry.ParseProbeOutput | modules/media_encoder.py:14-28 | a non-zero exit code gives no dimensions |
| Geometry.ProbeRoundTrip | modules/media_encoder.py:22-25 | the probe's `<w>x<h>x` answer parses back to (w, h) |
| Geometry.CropRoundTrip | modules/media_encoder.py:53 | every "l,r,t,b" string the encoder prints parses back to its four values |
| Geometry.CroppedDimensions | modules/media_encoder.py:202-203 | the cropped frame and the margins on both sides add up to the original frame, on each axis |
| Geometry.AutoCroppedFrame | modules/media_encoder.py:200-203 | with `auto_crop`'s box, a failed scan keeps the original frame; otherwise each axis loses twice its larger detected margin plus less than 8, always a multiple of 8, and non-negative margins never enlarge the frame |
| Geometry.RoundUpTo4 | modules/media_encoder.py:47-48 | the least multiple of 4 not below the value |
| Geometry.CropBoxOf | modules/media_encoder.py:43-56 | for detected margins: each axis uses the larger margin, rounded up to a multiple of 4, on both sides; no margins give the empty box |
| Geometry.AutoCropBox | modules/media_encoder.py:31-56 | a failed or unreadable scan gives the empty box; otherwise each axis uses the larger detected margin, rounded up to a multiple of 4, on both sides |
| Geometry.AutoCropReparses | modules/media_encoder.py:200-201 | re-reading `auto_crop`'s string gives back its box, which is non-negative when the detected margins are |
| Geometry.RoundHalfEven | modules/media_encoder.py:63 | Python `round` of a quotient: within half a unit of it, and even on a tie |
| Geometry.OutputDimensions | modules/media_encoder.py:59-90 | pad top/bottom when the width-derived height is tall enough, else pad left/right when the height-derived width is wide enough, else scale; padding splits with the odd pixel at the bottom or right |
| Geometry.OutputGeometryInvariants | modules/media_encoder.py:59-90 | paddings are non-negative, at most one axis is padded, the frame shrinks only when scaling, and the derived side is within half a pixel of the ratio |
| Geometry.LetterboxExample | modules/media_encoder.py:62-69 | a 1920x800 frame at 16/9 becomes 1920x1080 with 140 rows top and bottom |
| Geometry.ExactRatioExample | modules/media_encoder.py:62-69 | a frame already at 16/9 is left unpadded and unscaled |
| EncodeParams.CodecFor | modules/media_encoder.py:129-135 | exactly the five names are known, each mapped to its encoder; "h265" and "hevc" share one |
| EncodeParams.TunePsyRd | modules/media_encoder.py:171-179 | x264 gains the psy-rd pair at the end; x265 has the suffix added to the value after its first '-x265-params' and nothing else changed, failing when that flag is last; other encoders are unchanged |
| EncodeParams.TunedOptions | modules/media_encoder.py:138-179 | the options each encoder passes after the tweak: the x264 bundle plus the psy-rd pair, the x265 params pair with the suffix, nothing for VP9 and AV1 |
| EncodeParams.TunePsyRdOnBundles | modules/media_encoder.py:171-179 | the tweak applied to the configured bundles never fails and yields the tuned options |
| EncodeParams.SpeedFlag | modules/media_encoder.py:241-250 | x264/x265 take '-preset', VP9/AV1 take '-cpu-used' |
| EncodeParams.ThreadCount | modules/media_encoder.py:181-191 | at least one thread, and at most 16 for x264 |
| EncodeParams.ThreadCountFitsShare | modules/media_encoder.py:187-191 | the largest thread count whose cost fits the CPU share, except for the floor of one and the x264 cap |
| EncodeParams.ThreadCountMonotone | modules/media_encoder.py:187 | a larger CPU share never gives fewer threads |
| Command.FilterChain | modules/media_encoder.py:215-222 | the crop filter exactly when cropping, first, and the scale filter exactly when limited, last |
| Command.BuildFilterChain | modules/media_encoder.py:215-222 | the appended chain is the filter chain |
| Command.BuildFfmpegCommand | modules/media_encoder.py:229-269 | the appended command is the ffmpeg argument list |
| Command.FfmpegLayout | modules/media_encoder.py:229-269 | input first; '-vf' fifth exactly when there is a filter; encoder, speed, options and tune at fixed offsets; the user's words after every fixed flag; the scratch output last |
| Command.BlankHasNoWords | modules/media_encoder.py:264-266 | skipping a parameter string that strips to nothing equals appending its words |
| Command.MkvmergeArgs | modules/media_encoder.py:279-284 | writes the scratch file (third argument) from the encoded video (fourth) and the non-video streams of the original (last, after `--no-video`) |
| Filename.CleanName | modules/media_encoder.py:308-318 | the cleaned name always ends in ".mkv" |
| Filename.CleanNameReplacesLowerCaseMarker | modules/media_encoder.py:308-318 | markers match in any case: "Film.hevc.mkv" is cleaned to "Film.x265.mkv" for the x265 encoder |
| Filename.SubstituteEach | modules/media_encoder.py:311-317 | the marker loop is the passes applied in list order |
| Filename.CleanedFilename | modules/media_encoder.py:308-318 | the cleaned file name the encoder computes |
| Filename.CleanStemOfUnmarked | modules/media_encoder.py:311-317 | a stem without any marker survives both passes |
| Filename.CleanNameIdempotentOnUnmarked | modules/media_encoder.py:308-318 | for a name whose stem carries no marker, cleaning gives stem + ".mkv", and cleaning again changes nothing |
| Filename.CleanNameNotIdempotent | modules/media_encoder.py:298-318 | "AREMUXVC.mkv" is cleaned to "AVC.mkv", which is cleaned to "x265.mkv" |
| Pipeline.CropPlanFor | modules/media_encoder.py:110-119 | "auto" asks for the scan, "" means no crop, any other entry must be four integers |
| Pipeline.EncodeSingleVideoFile | modules/media_encoder.py:93-323 | the step-by-step run produces the file's trace and outcome |
| Pipeline.ProbeThenEncode | modules/media_encoder.py:171-206 | the run after configuration is the probe stage followed by the encode stage |
| Pipeline.EncoderSettings | modules/media_encoder.py:163-179 | the settings are those of the configuration, with the tuned option bundle |
| Pipeline.ProbeAndScan | modules/media_encoder.py:196-201 | the probe runs, then the scan only for "auto"; the box is the configured one or the scan's, read back |
| Pipeline.EncodeThenReplace | modules/media_encoder.py:215-320 | the encode stage's steps and outcome |
| Pipeline.ConfigurationErrorsRunNoTool | modules/media_encoder.py:112-165 | a bad crop entry fails first and an unknown codec next, both before any tool runs; otherwise the probe is the first effect |
| Pipeline.ProbeStage | modules/media_encoder.py:196-206 | the probe comes first; the run fails with the probe exactly when cropping is on and the probe failed; otherwise the encode stage decides |
| Pipeline.ToolRunOrder | modules/media_encoder.py:268-320 | ffmpeg runs first and once; mkvmerge runs only after it succeeds; removals happen only after both succeed; success means both succeeded, and ends with removing the original and the rename |
| Pipeline.RunStages | modules/media_encoder.py:93-323 | a run with a readable configuration is the probe stage, then the tool runs with this file's paths, command and cleaned name |
| Pipeline.RunOutcomes | modules/media_encoder.py:196-323 | the probe aborts exactly when cropping is on and the probe failed; otherwise the run succeeds exactly when both tools do, with the cleaned name, and ends with the rename |
| Pipeline.RemovalsFollowBothTools | modules/media_encoder.py:268-295 | nothing is removed unless ffmpeg and then mkvmerge succeeded, and a successful run removed the original |
| Pipeline.ProbeIgnoredWithoutCrop | modules/media_encoder.py:196-206 | without a crop entry the probe's answer does not change the run |
| Pipeline.FfmpegArgsShape | modules/media_encoder.py:229-269 | the command reads the original, filters exactly with a crop box or a limit, and writes the scratch video |
| Pipeline.FfmpegRunOfFile | modules/media_encoder.py:215-271 | every ffmpeg run of a file reads the original, writes the scratch video, and filters exactly when a crop entry or a limit is set |
| Pipeline.OnlyFfmpegRun | modules/media_encoder.py:271 | the only ffmpeg run is the one with the file's command |
| Pipeline.CropBoxPresence | modules/media_encoder.py:110-119 | a crop box reaches the filter exactly when the crop entry is not empty |
| Batch.WorkerCount | modules/media_encoder.py:350-356 | no more workers than allowed, than files, 2 for "h265" and 4 for "h264"; zero exactly when there are no files or no worker slots |
| Batch.WorkerCountIsLargest | modules/media_encoder.py:350-356 | the worker count is the largest meeting all bounds |
| Batch.PerFileCpu | modules/media_encoder.py:358 | division fails exactly for zero workers; otherwise the shares add up to the maximum |
| Batch.CollectResults | modules/media_encoder.py:379-393 | the batch fails exactly when some file fails, with the first failure in completion order; otherwise each slot holds its own file's result |
| Batch.TotalSizeAppend | modules/media_encoder.py:401-402 | the totals add up over consecutive groups of slots |
| Batch.SavingsPercent | modules/media_encoder.py:404-407 | 0 without bytes; otherwise the saved share in percent, truncated toward zero, for growth as well |
| Batch.SavingsShown | modules/media_encoder.py:404-409 | the summary is printed exactly when at least one percent of the original bytes was saved |
| Batch.FormatSizeReadsBack | modules/media_encoder.py:410-416 | the printed size is the whole number of units it names, in GB exactly from one gibibyte on |
| Batch.SavingsSummary | modules/media_encoder.py:409-421 | figures are produced exactly when the savings percentage is positive |
| Batch.FirstFailedIffSomeFails | modules/media_encoder.py:379-393 | some file fails exactly when a failure comes up in the completion order |
| Batch.CompletionOrderIrrelevant | modules/media_encoder.py:377-387 | whether the batch fails does not depend on the completion order, and a successful batch returns the same names in input order for any order |
| Batch.RunFiles | modules/media_encoder.py:376-378 | every file is run once, with the same CPU share |
| Batch.EncodeMediaFiles | modules/media_encoder.py:326-423 | zero workers fail the batch; otherwise the result is the slots collected in completion order, with the summary of the stored sizes |
| PathMapping.ReplaceChar | service/integrations/qbittorrent-automation/qbittorrent-automation.py:129 | each occurrence of the character, and nothing else, is replaced |
| PathMapping.NormalizeWindowsPath | service/integrations/qbittorrent-automation/qbittorrent-automation.py:128-129 | the result has no '/', no trailing separator and no upper-case letter |
| PathMapping.NormalizeCharacters | service/integrations/qbittorrent-automation/qbittorrent-automation.py:128-129 | the result is the path's prefix with '/' read as '\' and letters folded, and only separators were dropped |
| PathMapping.NormalizeIdempotent | service/integrations/qbittorrent-automation/qbittorrent-automation.py:128-129 | normalising twice is normalising once |
| PathMapping.FirstMatchFrom | service/integrations/qbittorrent-automation/qbittorrent-automation.py:138-141 | the first mapping, in insertion order, whose prefix matches |
| PathMapping.RelativePart | service/integrations/qbittorrent-automation/qbittorrent-automation.py:142 | the original path after its first `len(win_prefix)` characters (nothing when the prefix is longer), with exactly its leading separators removed |
| PathMapping.TranslatedSpec | service/integrations/qbittorrent-automation/qbittorrent-automation.py:132-147 | identity when translation is off; an error exactly when no prefix matches; otherwise the first match's Linux prefix joined with the relative part of line 142, its '\' turned into '/' |
| PathMapping.TranslatePath | service/integrations/qbittorrent-automation/qbittorrent-automation.py:132-147 | the loop returns the translation through the first matching mapping |
| PathMapping.PrefixMatchCapturesSibling | service/integrations/qbittorrent-automation/qbittorrent-automation.py:139-143 | with the source's prefix test, `c:\a` → `/a` translates `c:\ab\c` to `/a/b/c` |
| PathMapping.FolderMatchSkipsSibling | service/integrations/qbittorrent-automation/qbittorrent-automation.py:139-141 | with the folder-boundary test, that sibling is not translated |
| PathMapping.FolderMatchStaysInFolder | service/integrations/qbittorrent-automation/qbittorrent-automation.py:139-141 | with the folder-boundary test, a translated path lies in a mapped folder |
| PathMapping.QuoteFrom | service/integrations/qbittorrent-automation/qbittorrent-automation.py:62 | the first quote at or after a position, or none |
| PathMapping.ParseMappingLine | service/integrations/qbittorrent-automation/qbittorrent-automation.py:57-67 | blank and '#' lines are skipped exactly; a mapping line starts with a quote |
| PathMapping.MappingLineRoundTrip | service/integrations/qbittorrent-automation/qbittorrent-automation.py:62-65 | a line written `"w" -> "l"` reads back as the stripped pair |
| PathMapping.LoadPathMappings | service/integrations/qbittorrent-automation/qbittorrent-automation.py:50-69 | an unset variable raises (no table); a missing file gives the empty table; otherwise the valid lines assigned in file order |
| PathMapping.LoadStep | service/integrations/qbittorrent-automation/qbittorrent-automation.py:57-67 | a valid line assigns its pair; any other line changes nothing |
| PathMapping.LoadedMappingsSpec | service/integrations/qbittorrent-automation/qbittorrent-automation.py:50-69 | each Windows path appears once, with the Linux path of its last valid line |
| Torrents.TagList | service/integrations/qbittorrent-automation/qbittorrent-automation.py:154 | splitting the tags always gives at least one part |
| Torrents.HashPairs | service/integrations/qbittorrent-automation/qbittorrent-automation.py:120 | one `hash: torrent` pair per record, in order |
| Torrents.DedupDistinct | service/integrations/qbittorrent-automation/qbittorrent-automation.py:120-121 | de-duplication leaves one torrent per hash |
| Torrents.DedupLastWins | service/integrations/qbittorrent-automation/qbittorrent-automation.py:120 | the torrent kept for a hash is its last record |
| Torrents.DedupCovers | service/integrations/qbittorrent-automation/qbittorrent-automation.py:120-121 | no hash is lost |
| Torrents.GetCompletedTorrents | service/integrations/qbittorrent-automation/qbittorrent-automation.py:93-125 | any failed query gives no torrents; otherwise the de-duplicated concatenation of the answers |
| Torrents.CollectAnswers | service/integrations/qbittorrent-automation/qbittorrent-automation.py:96-117 | fails exactly when some query fails; otherwise the answers concatenated in tag order |
| Torrents.MatchedTag | service/integrations/qbittorrent-automation/qbittorrent-automation.py:154 | none exactly when no tag is a target; otherwise the first tag that is one |
| Torrents.TagsToRemove | service/integrations/qbittorrent-automation/qbittorrent-automation.py:193 | exactly the torrent's tags that are target tags |
| Torrents.TagsToRemoveAppend | service/integrations/qbittorrent-automation/qbittorrent-automation.py:193 | filtering distributes over concatenation, so order is kept |
| Torrents.MatchedIsFirstRemoved | service/integrations/qbittorrent-automation/qbittorrent-automation.py:154 | the matched tag is the first tag that marking removes |
| Torrents.CopySpec | service/integrations/qbittorrent-automation/qbittorrent-automation.py:150-187 | for the translation test the program uses (or any other): writes go only to the scratch name and the one rename goes to the free final name; the copy succeeds exactly when the source translates to an existing folder or file, a non-empty tag matches, the destination is free and copying works |
| Torrents.NeverOverwrites | service/integrations/qbittorrent-automation/qbittorrent-automation.py:160-164 | an existing destination is never written |
| Torrents.MarkCalls | service/integrations/qbittorrent-automation/qbittorrent-automation.py:195-212 | a removal of the joined target tags only when there are any, then adding the mark, last |
| Torrents.MarkFollowsOutcome | service/integrations/qbittorrent-automation/qbittorrent-automation.py:276-282 | the copy's changes come first, and the last effect adds the done tag for 0 and the failed tag otherwise |
| Torrents.DoneIffCopied | service/integrations/qbittorrent-automation/qbittorrent-automation.py:278-282 | the done tag is added exactly when the copy returned 0 |
| Torrents.AddedTagIsMark | service/integrations/qbittorrent-automation/qbittorrent-automation.py:208-212 | the mark is the only tag marking adds |
| Torrents.PollOnce | service/integrations/qbittorrent-automation/qbittorrent-automation.py:269-282 | with translation on and the mapping variable unset, the pass handles no torrent; otherwise it loads the mappings only when translating, collects the torrents and handles each in order, translating with the prefix test of line 141 |
| Torrents.HandleTorrents | service/integrations/qbittorrent-automation/qbittorrent-automation.py:276-282 | each torrent handled in turn with the given translation test, its effects appended |
| Torrents.HandleAllStep | service/integrations/qbittorrent-automation/qbittorrent-automation.py:276-282 | handling one more torrent appends its effects |

## Left out

- **External programs.** ffprobe, HandBrakeCLI, ffmpeg and mkvmerge are not run. Their answers are fields of `Pipeline.World`, and their runs are steps of a trace.
- **File-system and API effects.** These are trace entries, and the state they leave behind is not modelled. The same holds for the torrent manager's HTTP API: login, re-login on 401/403, timeouts and response bodies are reduced to an optional answer per tag query.
- **Concurrency.** The thread pool's scheduling is an arbitrary completion order (`Batch.IsCompletionOrder`). Files run independently in the model, and a failure cancels no file, queued or running.
- **Helpers from `modules/misc`.** Configuration lookup, `get_worker_thread_count` and logging are not part of this model. Their values are parameters.
- **Output.** Logging, progress output and printed messages are left out; only the figures of the savings line are modelled. The debug messages of `get_video_dimensions` are left out too.
- **Timing.** The encoding time measurement is left out. So are the endless loop of `main`, its three-second sleep and its startup login: one pass is modelled.
- **Environment variables.** TARGETS, DONE_TAG and the translation switch are a `Torrents.Settings` value; the JSON parsing of TARGETS is left out. The mapping-file setting is `PathMapping.MappingFile`: unset, naming no file, or a file's lines.
- EncodeParams.ThreadCount: the float arithmetic is modelled with exact reals, so a floor that float rounding would move across an integer is not captured.
- Geometry.RoundHalfEven: the desired ratio is an exact fraction num/den rather than a float, so float rounding of the quotient is not captured.
- Batch.SavingsPercent: the percentage is computed exactly and truncated toward zero. The program computes it in floating point, so where the exact share is a whole percentage the float product can fall just below it and print one less (initial 100, resulting 71: 28 rather than 29). This float rounding is not captured.
- Filename.CleanName: its own contract states only the ".mkv" ending. That each marker is replaced in any case, left to right and without overlap, is stated for one pass by `Text.ReplaceFirstMatch` and for a whole name on the sample of `Filename.CleanNameReplacesLowerCaseMarker`, not for every name.
- Text.ParseInt: accepts an optional sign and ASCII digits, with surrounding whitespace. Python's `int()` also accepts underscores between digits and non-ASCII decimal digits; those forms are refused here. They reach the crop entry and the probe answer.
- **`limit_resolution`:** carried as the text it prints as, or None when falsy. Its truthiness rules for non-string values are not modelled.
- **`auto_crop`'s regular expression:** modelled for its own pattern only (the first line with `+ autocrop: ` and a non-empty rest). The same holds for the mapping-line pattern. No general regular-expression engine is modelled.
- **Case and whitespace:** case folding and case-insensitive matching are ASCII only, and whitespace is the ASCII set. Unicode case rules and Unicode whitespace are not modelled.
- **`pix_fmt`:** never emitted, because no bundle sets it.
- **A tags field of `None`**, as opposed to a missing one, is not modelled.

## Findings

| source | as written | input that shows it | evidently intended | confidence | as-written member | corrected member |
|---|---|---|---|---|---|---|
| service/integrations/qbittorrent-automation/qbittorrent-automation.py:141 | a mapping matches any path whose normalised form starts with the normalised prefix, with no check that the prefix ends at a folder boundary | mapping `c:\a` → `/a`, path `c:\ab\c`: translated to `/a/b/c`, a folder the mapping never named | a mapping applies only to its folder and the paths below it | not executed | PathMapping.PrefixMatchCapturesSibling | PathMapping.FolderMatchStaysInFolder |

The copy and the handling of torrents (`Torrents.CopyTorrentContent`, `Torrents.HandleTorrents`) take the translation test as a parameter, and their lemmas hold for any test. The pass as the program runs it (`Torrents.PollOnce`) uses the as-written prefix test (`PathMapping.PrefixMatch`). The corrected folder-boundary test (`PathMapping.FolderMatch`) can be passed instead; `PathMapping.FolderMatchSkipsSibling` shows that it refuses the sibling path above.
