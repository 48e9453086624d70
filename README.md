# TrendClip core, modelled in Dafny

TrendClip Desktop turns landscape clips into vertical 9:16 shorts and uploads them to YouTube.
It ships as a zip package, and it repairs its own toolchain (ffmpeg, yt-dlp). This project
models the deterministic decisions and the arithmetic that the Python code wraps around
ffmpeg, the file system and the Google APIs. Each of those external calls becomes an input.

- `common.dfy` holds two modules. `Wrappers` has `Option`, `Result` and `Outcome`. `Text`
  models the Python string operations the core relies on, each stated and proved once:
  - `in` on strings;
  - `str.strip` over Python's full whitespace set;
  - `split` on one character, and `join`;
  - `str(n)` and `int(s)`, with sign, surrounding blanks and digit-group underscores;
  - `strftime` fixed-width digits.
- `paths.dfy` (`Paths`) models Windows-flavoured `pathlib` paths: the components joined by a
  backslash, `name`, `stem`, and `/`.
- `video_processor.dfy` (`VideoProcessor`) covers:
  - choosing the frame size from ffprobe's stream list;
  - the centred crop to a target aspect ratio, and its symbolic fallback;
  - the ffmpeg argument list and filter string;
  - the accept/reject rule for the produced file.
- `packager.dfy` (`Packager`) covers:
  - the ordered include/exclude filter;
  - the recursive scan, over an abstract directory tree;
  - the manifest loop;
  - the package validation verdicts;
  - the development build's pattern save and restore;
  - the package name.
- `youtube_uploader.dfy` (`YouTubeUploader`) covers:
  - the upload body (default title, idempotent ` #Shorts` rule, tags, `part`);
  - the `next_chunk` loop and the result dictionary;
  - the command line's tag parsing.
- `api_wizard.dfy` (`ApiWizard`) covers:
  - discovery of API keys from the environment;
  - filtering of typed keys;
  - `.env` serialisation, with a parse back;
  - the `config.yaml` merge;
  - the wizard's input defaults and its overall verdict.
- `self_heal.dfy` (`SelfHeal`) covers:
  - the checksum format and its placeholder rule;
  - the tool lookup order (tools directory, then PATH);
  - installation early exits;
  - `heal_tool` short-circuit and dispatch;
  - `heal_all_tools`' result map.
- `integrate_features.dfy` (`IntegrateFeatures`) covers `integrate_new_features`, with the
  installation directory as a map from file name to text:
  - the module copy loop;
  - the append-only, name-keyed requirements merge;
  - creating `config.yaml` only when it is absent.

The objects whose fields the code updates are classes:
- `TrendClipPackager.include_patterns`;
- the uploader's service handle;
- the wizard's `.env` and `config.yaml`;
- the toolchain's machine state;
- the installation's files.

Their loops are `while` loops, each proved against a specification function. The pure decision
code is modelled as functions, with lemmas about them.

Where the prose design of the system and the code disagree, the model follows the code:
- The crop is not even-aligned. A 1920x1080 source is cropped to 607x1080 at x=656
  (`CropFullHd`).
- The "already at target ratio" case is an exact comparison with no epsilon. It leaves the
  frame uncropped (`PlanCropAtTarget`).
- Zero dimensions never reach the planner. `detect_aspect_ratio` skips such streams and falls
  back to 16x9.
- The code has no job queue, history ledger, retry, timeout or re-probe of the output. So there
  is nothing of them to model.

Two behaviours of the code as written are stated as lemmas, not changed:
- The exclude pattern `env` rejects any path containing those letters (`EnvRejectsSetupScript`).
- After `install_ffmpeg` moves the executables to `tools\ffmpeg\bin`, the tools-directory probe
  `tools\ffmpeg.exe` still does not exist, unless it was there before or the archive held it. Only an executable found on PATH makes the
  installation succeed (`FfmpegMoveMissesProbe`).

## Model

| member | source | states |
|---|---|---|
| VideoProcessor.DetectAspectRatio | video_processor.py:71-79 | the (width, height) of the first video stream with both dimensions non-zero; (16, 9) when there is none; never a zero dimension |
| VideoProcessor.FullHdSize | video_processor.py:73-78 | a leading audio stream is skipped and the 1920x1080 video stream is chosen |
| VideoProcessor.PlanCrop | video_processor.py:94-118 | a zero target height, or a zero target width when the source is not wider than the target, gives the fallback, which records no original size; in every other case the original size (w, h) is recorded, the target size equals the crop size, one axis is kept whole and each offset is half the cut, rounded down |
| VideoProcessor.PlanCropWider | video_processor.py:94-100 | a source wider than the target keeps its height; the crop width is the floor of height*tw/th, strictly narrower than the source, and centred with x = (width - crop_width) // 2 |
| VideoProcessor.PlanCropTaller | video_processor.py:101-107 | a source not wider than the target keeps its width; the crop height is the floor of width*th/tw, at most the source height, and centred with y = (height - crop_height) // 2 |
| VideoProcessor.PlanCropInsideSource | video_processor.py:94-118 | the crop lies inside the source; the two margins of the cropped axis differ by at most one pixel; at most one axis is cut, and none at the target ratio; the target size equals the crop size and the original size is recorded |
| VideoProcessor.PlanCropAtTarget | video_processor.py:94-107 | a source exactly at the target ratio takes the second branch and yields the identity crop |
| VideoProcessor.CropFullHd | video_processor.py:94-100 | 1920x1080 to 9:16 crops 607x1080 at x=656, y=0 |
| VideoProcessor.ParseDefaultAspect | video_processor.py:88 | the default target "9:16" parses to (9, 16) |
| VideoProcessor.CalculateCropParameters | video_processor.py:81-130 | a failed probe or a target that is not two integers around ':' gives the fallback; an original size, when present, is the size detected from the probe; with a probe and a parsed target, the result is PlanCrop of the detected size and that target |
| VideoProcessor.CropFallbackCases | video_processor.py:120-130 | a failed probe, a target that is not two integers around ':', or a zero height part yields the fallback: x=y=0, 'iw'/'ih', 1080x1920, no original size |
| VideoProcessor.DefaultCropIsPlanned | video_processor.py:148 | with a probe, the default target always yields the pixel crop planned from the detected size |
| VideoProcessor.VideoFilter | video_processor.py:155 | the filter string starts with the crop=w:h:x:y piece, up to the first comma, and right after that comma comes the fixed scale-and-pad chain |
| VideoProcessor.VideoFilterRoundTrip | video_processor.py:155 | the crop=w:h:x:y head of the filter string reads back as exactly the crop's four numbers |
| VideoProcessor.LeadArgs | video_processor.py:151-155 | the first seven arguments: engine, -i input, -t duration, -vf filter |
| VideoProcessor.FfmpegCommand | video_processor.py:151-168 | the 29 arguments: engine, -i input, -t duration, -vf filter, the fixed encoder settings, then -y and the output path last |
| VideoProcessor.ProcessTo916 | video_processor.py:132-189 | success iff the engine exits with status 0 and the output file exists; the 29-argument command reads the input and writes the output, with the 9:16 filter of the crop calculated from the probe |
| VideoProcessor.ProcessTo916Unprobed | video_processor.py:148-155 | after a failed probe the filter crops iw:ih:0:0, the whole frame |
| VideoProcessor.FallbackFilter | video_processor.py:123-130 | the fallback crop renders as iw:ih:0:0 |
| VideoProcessor.ProcessTo916Probed | video_processor.py:148-155 | with a probe the -vf argument carries the 9:16 crop planned from the detected size, readable back exactly |
| VideoProcessor.HasVideoStream | video_processor.py:268 | true iff some stream has codec type 'video' |
| VideoProcessor.ValidateOutput | video_processor.py:253-274 | accepted iff the file exists, is at least 1024 bytes, the probe succeeds and finds a video stream |
| VideoProcessor.ValidateOutputSizeBoundary | video_processor.py:260-262 | 1023 bytes is rejected whatever the probe says; 1024 bytes with a video stream is accepted |
| Text.ParseIntToString | api_wizard.py:311 | int(str(n)) == n for every integer |
| Text.ParseInt | api_wizard.py:311 | a parsed text, once stripped, is non-empty, ends in a digit and starts with a digit or a sign |
| Text.Strip | api_wizard.py:200 | never longer than its input; a non-empty result neither starts nor ends with whitespace |
| Text.StripSpec | api_wizard.py:200 | strip() returns a slice of the input; everything cut at either end is whitespace and no whitespace is left at its ends |
| Text.StripIdempotent | api_wizard.py:200 | stripping twice equals stripping once |
| Text.Split | youtube_uploader.py:292 | split(c) yields one piece more than there are separators, none containing c |
| Text.JoinSplit | youtube_uploader.py:292 | joining the split pieces with the separator gives the string back |
| Text.SplitJoin | youtube_uploader.py:292 | splitting a join of separator-free pieces gives the pieces back |
| Text.StripAll | youtube_uploader.py:292 | the comprehension strips each piece, keeping count and order |
| Text.BeforeFirst | integrate_features.py:56 | split(sep)[0]: the whole text when sep does not occur; otherwise the prefix that ends exactly where the first occurrence of sep starts |
| Paths.Child | self_heal.py:134 | directory / name has one more component, keeps the directory's components and has name as its name |
| Paths.ChildText | self_heal.py:134 | str(directory / name) is the directory's text, a backslash, then the name |
| Paths.Stem | youtube_uploader.py:152 | the stem is the name, or the part of the name before its last dot when that dot is neither first nor last |
| Packager.GlobLiteral | packager.py:99-101 | a pattern without wildcards matches only the name equal to it |
| Packager.GlobStarSuffix | packager.py:99-101 | '*' followed by a literal matches exactly the names ending in that literal |
| Packager.ExtensionGlob | packager.py:99-101 | an extension glob matches exactly the names whose lower-cased form ends in the extension |
| Packager.AnyContained | packager.py:89-96 | some pattern is a substring of the path text |
| Packager.AnyMatch | packager.py:99-101 | some include glob matches the path |
| Packager.ShouldInclude | packager.py:84-123 | an accepted path contains no excluded pattern or directory, and a glob matches its name, an include directory occurs in its text, or its name is an important file |
| Packager.ShouldIncludeSpec | packager.py:84-123 | either exclusion list rejects the path whatever the include rules say; otherwise accepted iff a glob matches the name, an include directory occurs in the text, or the name is an important file |
| Packager.StarExcludesAreLiteral | packager.py:89-91 | an exclude pattern holding '*' rejects only paths whose text holds a literal '*' |
| Packager.ExcludedByName | packager.py:89-91 | an exclude pattern occurring anywhere in a file name rejects the file |
| Packager.EnvRejectsSetupScript | packager.py:49-91 | the glob '*.bat' matches setup_env.bat, yet the pattern 'env' rejects it |
| Packager.ExtraPatternsKeepSelection | packager.py:99-101 | appending patterns already in the list selects exactly the same files |
| Packager.DevPatternsKeepSelection | packager.py:374-386 | the development build's extra patterns are all defaults, so it selects exactly the normal package's files |
| Packager.Reached | packager.py:131-143 | a listing that raises at entry k handles exactly the first k entries |
| Packager.ScanDirectory | packager.py:129-143 | the scan appends exactly the selected files below the directory, in iteration order |
| Packager.ScanFrom | packager.py:129-143 | every file the scan returns from a listing's entries passes should_include_file |
| Packager.ScanEntry | packager.py:133-139 | every file one entry contributes passes should_include_file |
| Packager.ScanFromBelow | packager.py:136-139 | every file returned lies below the scanned directory, with no excluded directory name on the way |
| Packager.ScanEntryBelow | packager.py:136-139 | an excluded directory is not descended into |
| Packager.ScanFailureTruncates | packager.py:131-143 | an error while listing a directory drops only that directory's remaining entries |
| Packager.DedupFirst | packager.py:174-176 | the first occurrences, duplicate-free, with the same elements |
| Packager.Step | packager.py:159-179 | one file whose stat fails or that lies outside the base leaves the tally as it is; otherwise its relative path, size and time are appended and its size is added; the directory list only grows, by at most one |
| Packager.TallyOf | packager.py:159-179 | at most one file and one directory per input file; the total is never negative |
| Packager.TallyFiles | packager.py:159-171 | the manifest lists the files whose stat succeeds, in input order, and the total is the sum of their sizes |
| Packager.TallyDirectories | packager.py:173-176 | the directory list is the first occurrence of each recorded parent directory, in order, with no duplicates |
| Packager.StepDirectories | packager.py:174-176 | one file adds its parent directory unless it is empty or already listed |
| Packager.RecordedPathRelative | packager.py:162-168 | a recorded file's path is its path relative to the base |
| Packager.TopLevelParentIsDot | packager.py:174-176 | a file of the base directory records '.' as its parent directory |
| Packager.FirstMissing | packager.py:356-360 | the first essential name no entry contains; none iff every essential name occurs in some entry |
| Packager.ValidatePackage | packager.py:328-367 | the verdicts in order: missing file, over 500 MiB, unreadable, corrupt, a missing essential name; passed iff none applies |
| Packager.ValidatePackageSizeBoundary | packager.py:338-341 | exactly 524288000 bytes passes the size check; one byte more fails it |
| Packager.EssentialInSubfolder | packager.py:356-360 | essential names inside a folder still count, since they are matched as substrings |
| Packager.DateStamp | packager.py:81 | the date stamp is eight digits |
| Packager.DateStampRoundTrip | packager.py:81 | the stamp reads back as year, month and day |
| Packager.TrendClipPackager.constructor | packager.py:22-77 | the packager starts with the default pattern and directory lists |
| Packager.TrendClipPackager.GetPackageName | packager.py:79-82 | TrendClipOne_, the version, '_', then the eight-digit date stamp |
| Packager.TrendClipPackager.GetFilesToPackage | packager.py:125-146 | the scan of the base directory; every file returned is selected and lies outside excluded directories |
| Packager.TrendClipPackager.CreatePackageManifest | packager.py:148-181 | version, clock and base path; the recorded files in order; total = sum of sizes; de-duplicated first-seen directories |
| Packager.TrendClipPackager.CreateDevelopmentPackage | packager.py:369-395 | the build sees the extended patterns; they are restored on a normal return and left extended when the build raises |
| YouTubeUploader.Part | youtube_uploader.py:178 | part is exactly "snippet,status" |
| YouTubeUploader.ChosenTitle | youtube_uploader.py:152 | the given title, or the file stem when it is missing or empty |
| YouTubeUploader.ShortsTitle | youtube_uploader.py:164-165 | ' #Shorts' is appended iff the video is a short and the title lacks '#Shorts'; a short's title always contains it |
| YouTubeUploader.ShortsTitleIdempotent | youtube_uploader.py:164-165 | applying the #Shorts rule to its own output changes nothing |
| YouTubeUploader.BuildBody | youtube_uploader.py:150-165 | the body: the title is ShortsTitle of ChosenTitle (the chosen title, with " #Shorts" appended for a short that lacks it), description, tags or [], category, privacy, not made for kids |
| YouTubeUploader.WatchUrl | youtube_uploader.py:196 | the watch URL is the fixed prefix followed by the id |
| YouTubeUploader.WatchId | youtube_uploader.py:196 | an id read from a URL gives that URL back under the prefix |
| YouTubeUploader.WatchUrlRoundTrip | youtube_uploader.py:196 | the id reads back out of its watch URL |
| YouTubeUploader.FirstTerminal | youtube_uploader.py:184-188 | the first chunk that is not progress, with only progress before it |
| YouTubeUploader.UploadOutcome | youtube_uploader.py:184-204 | when only progress chunks come before chunk k and chunk k is not progress, the outcome is its response or its error |
| YouTubeUploader.UploadOutcomeAt | youtube_uploader.py:184-188 | the loop's outcome is the response or error of the first non-progress chunk |
| YouTubeUploader.Report | youtube_uploader.py:192-204 | a response gives success with its id, title and a watch URL that reads back to the id; an error gives failure with its message |
| YouTubeUploader.Uploader.constructor | youtube_uploader.py:54-55 | no service is built yet |
| YouTubeUploader.Uploader.UploadVideo | youtube_uploader.py:132-204 | a failed authentication or a missing file is reported, not raised, and sends nothing; otherwise the request carries "snippet,status" and the built body, and the result reports the upload loop's outcome |
| YouTubeUploader.Uploader.NextChunkLoop | youtube_uploader.py:184-197 | progress chunks are skipped; the result reports the first response or the first error |
| YouTubeUploader.ParseTags | youtube_uploader.py:292 | None without --tags; otherwise one stripped, comma-free tag per comma plus one |
| YouTubeUploader.ParseTagsPieces | youtube_uploader.py:292 | tag k is the k-th comma-separated piece, stripped |
| YouTubeUploader.ParseTagsJoin | youtube_uploader.py:292 | stripped, comma-free tags joined by commas parse back to themselves |
| YouTubeUploader.CommandLineBody | youtube_uploader.py:292-301 | the command line uploads a short in category 22: its title contains #Shorts, and it has one tag per comma plus one, or none |
| ApiWizard.Collect | api_wizard.py:54-76 | at most one entry per name, and no entry with an empty value |
| ApiWizard.CollectSpec | api_wizard.py:56-76 | exactly the non-empty values are recorded, each under its own name; empty iff every value is empty; distinct names give distinct keys |
| ApiWizard.CollectThree | api_wizard.py:194-217 | the three conditional inserts, in order |
| ApiWizard.Lookups | api_wizard.py:59-71 | each name's environment value, a missing variable reading as empty |
| ApiWizard.KeyNamesDistinct | api_wizard.py:59-71 | the three key names are distinct |
| ApiWizard.EnvironmentKeys | api_wizard.py:54-76 | a key is found iff its variable is set and non-empty, and it maps to that value |
| ApiWizard.AnswerKeys | api_wizard.py:192-217 | a typed key is recorded iff its stripped answer is non-empty, and the stripped value is stored |
| ApiWizard.EnvLines | api_wizard.py:225-226 | one KEY=VALUE line per item, in dictionary order |
| ApiWizard.ParseEnvLines | api_wizard.py:225-226 | each line is read back on its own |
| ApiWizard.ParseEnvLineRoundTrip | api_wizard.py:226 | a KEY=VALUE line reads back as its item when the key has no '=' |
| ApiWizard.EnvFileRoundTrip | api_wizard.py:222-229 | the .env text reads back as the items in order |
| ApiWizard.EnvFileEnds | api_wizard.py:229 | the .env text ends with the last value: no trailing newline |
| ApiWizard.Merge | api_wizard.py:246-252 | every old key and every setting key; settings win; a missing file starts from {} |
| ApiWizard.Region | api_wizard.py:299-300 | the stripped answer, or GB when it is empty |
| ApiWizard.DefaultDurationParses | api_wizard.py:311 | the default "60" parses as 60 |
| ApiWizard.Duration | api_wizard.py:309-314 | 60 for an empty answer or a ValueError; otherwise int() of the stripped answer |
| ApiWizard.DurationOfNumber | api_wizard.py:309-314 | a number typed with or without surrounding blanks sets that duration |
| ApiWizard.WizardSettings | api_wizard.py:296-314 | exactly region, cpm_gbp and clip_duration, with their defaults |
| ApiWizard.WizardVerdictSpec | api_wizard.py:328-335 | success iff OAuth worked, some typed key is non-blank, or some key variable is set |
| ApiWizard.AnswersGiven | api_wizard.py:192-217 | the typed keys are non-empty iff some stripped answer is non-empty |
| ApiWizard.VariablesSet | api_wizard.py:54-76 | the environment keys are non-empty iff some key variable is set and non-empty |
| ApiWizard.APIWizard.constructor | api_wizard.py:37-52 | the wizard starts from the given .env and config.yaml |
| ApiWizard.APIWizard.CheckEnvironmentVariables | api_wizard.py:54-76 | the keys collected from the environment, in the order YouTube, OpenAI, Tavily |
| ApiWizard.APIWizard.SetupApiKeys | api_wizard.py:192-217 | the keys collected from the stripped answers, in prompt order |
| ApiWizard.APIWizard.EnvContent | api_wizard.py:223-229 | the KEY=VALUE lines joined by newlines |
| ApiWizard.APIWizard.SaveApiKeysToEnvFile | api_wizard.py:219-238 | on success .env holds the KEY=VALUE lines; on a write error False is returned and the model keeps the old .env |
| ApiWizard.APIWizard.UpdateConfig | api_wizard.py:240-265 | on success config.yaml holds the merge of the old config and the settings; .env is untouched |
| ApiWizard.APIWizard.RunWizard | api_wizard.py:267-335 | .env is written only when keys were typed; config.yaml gets the defaulted settings; the verdict is OAuth or typed keys or environment keys |
| SelfHeal.DefaultRegistryValid | self_heal.py:30-45 | the tool table lists ffmpeg then yt-dlp, each once, with info for each |
| SelfHeal.ChecksumString | self_heal.py:59-69 | algorithm:hexdigest, or "" when reading fails |
| SelfHeal.ChecksumAlgorithm | self_heal.py:66 | the algorithm is the text before the first ':' |
| SelfHeal.VerifyChecksum | self_heal.py:71-78 | an empty or placeholder expectation passes whatever the file holds; otherwise the file verifies iff it was read and algorithm:digest equals the expectation |
| SelfHeal.VerifyChecksumDigest | self_heal.py:77-78 | against sha256:hex a file verifies iff its digest is hex |
| SelfHeal.ShippedChecksumsSkip | self_heal.py:34-42 | every shipped checksum is the placeholder, so no shipped tool is hashed |
| SelfHeal.CheckToolAvailability | self_heal.py:125-154 | unknown tool message; available iff a working copy exists in the tools directory or works on PATH; the path returned works; "" otherwise |
| SelfHeal.ToolsDirPreferred | self_heal.py:133-141 | a working tools-directory copy is returned by its path |
| SelfHeal.PathFallback | self_heal.py:145-150 | otherwise a working PATH executable is returned by its bare name |
| SelfHeal.GetToolPath | self_heal.py:264-269 | the path iff the tool is available, else None |
| SelfHeal.MoveAll | self_heal.py:183-187 | the moves only add destinations: every file after it was there before or is a destination, and every file that is not a source stays |
| SelfHeal.MoveAllMoves | self_heal.py:183-187 | when no source is a destination and the sources are distinct, each source present is at its destination afterwards and gone from its place |
| SelfHeal.AfterFfmpegUnpack | self_heal.py:172-187 | the unpacked files are added to the machine's; every file other than a moved executable in the extract directory is still there; the working commands are those after the install |
| SelfHeal.InstallFfmpeg | self_heal.py:156-203 | a failed download or extraction returns False, with the temp zip kept; otherwise the machine is the one after the unpack and move, and the result is the availability check on it |
| SelfHeal.FfmpegMoveMissesProbe | self_heal.py:172-193 | unpacking and moving the executables to tools\ffmpeg\bin never creates tools\ffmpeg.exe, which the availability check probes first, unless it was already there or in the archive |
| SelfHeal.ShippedFfmpegMoves | self_heal.py:177-187 | with the shipped extract path, each executable present in the extract directory ends up in tools\ffmpeg\bin and is gone from the extract directory |
| SelfHeal.InstallYtDlp | self_heal.py:205-234 | a failed download returns False with the machine unchanged; otherwise the machine is the old files plus tools\yt-dlp.exe with the run's working commands, and the result is the availability check on it |
| SelfHeal.HealTool | self_heal.py:236-253 | an available tool is not reinstalled; a missing ffmpeg or yt-dlp gets its installer's result and machine; another name is only checked; an unknown name gives False; a healed tool is available afterwards |
| SelfHeal.HealAll | self_heal.py:255-262 | the result map's keys are exactly the tool names |
| SelfHeal.HealAllSound | self_heal.py:255-262 | each tool's entry is heal_tool on the machine the earlier tools left, and a healed tool is then available |
| SelfHeal.SelfHealToolchain.constructor | self_heal.py:24-45 | the tools directory is base\tools and the table is the shipped one |
| SelfHeal.SelfHealToolchain.HealOne | self_heal.py:236-253 | heal_tool's result and machine, so a missing tool is installed; healed implies available |
| SelfHeal.SelfHealToolchain.HealAllTools | self_heal.py:255-262 | one heal_tool result per tool in table order, keys exactly the tool names |
| IntegrateFeatures.DefaultLayoutValid | integrate_features.py:26-64 | the module, requirements and config file names are distinct |
| IntegrateFeatures.RequirementName | integrate_features.py:56 | the whole requirement when it has no '>='; otherwise the text before the first '>=' |
| IntegrateFeatures.Merge | integrate_features.py:50-58 | the merge is append-only: the old text is a prefix of the new |
| IntegrateFeatures.MergeStep | integrate_features.py:55-58 | one requirement adds "\n" + req iff its name is absent from the text read before the loop |
| IntegrateFeatures.MergeAppends | integrate_features.py:55-58 | the result is the old text followed by "\n" + each absent requirement, in list order |
| IntegrateFeatures.MergeCovers | integrate_features.py:55-58 | after the merge every requirement's name occurs in the text |
| IntegrateFeatures.MergeNothingNew | integrate_features.py:55-56 | nothing is appended when every name already occurs |
| IntegrateFeatures.MergeIdempotent | integrate_features.py:55-59 | merging a second time adds nothing |
| IntegrateFeatures.CopyAll | integrate_features.py:32-40 | each module present beside the script is copied over; other files are untouched; missing modules are skipped |
| IntegrateFeatures.CopyAllKeeps | integrate_features.py:36-40 | a module absent beside the script keeps its installed text |
| IntegrateFeatures.WithRequirements | integrate_features.py:43-61 | the same file names; requirements.txt, when present, holds the merge; every other file is unchanged |
| IntegrateFeatures.WithConfig | integrate_features.py:64-101 | every file is kept as it is; config.yaml is added with the default text only when absent |
| IntegrateFeatures.Integrated | integrate_features.py:12-109 | afterwards the files are those installed, the modules found beside the script, and config.yaml |
| IntegrateFeatures.IntegratedSpec | integrate_features.py:32-101 | modules copied; requirements.txt merged if present and never created; config.yaml kept if present, else the default; nothing else touched |
| IntegrateFeatures.IntegratedTwice | integrate_features.py:32-101 | a second integration leaves the files as the first one left them |
| IntegrateFeatures.Installation.constructor | integrate_features.py:16-17 | the installation starts from the given files with the shipped layout |
| IntegrateFeatures.Installation.IntegrateNewFeatures | integrate_features.py:12-109 | a missing installation returns False before any copy; otherwise True with the files integrated |
| IntegrateFeatures.Installation.CopyModules | integrate_features.py:32-40 | the copy loop's effect is CopyAll |
| IntegrateFeatures.Installation.AppendRequirements | integrate_features.py:42-61 | the requirements loop merges against the text read before it; no requirements.txt means no write |

## Left out

- ffprobe and ffmpeg are not run. The parsed probe result (or its failure) and the engine's exit are inputs. `create_thumbnail`, `extract_audio` and `_get_ffmpeg_path` are command wrappers around them.
- `get_video_duration` and the wizard's CPM parse use floating point. The parsed CPM is an input, `None` when `float()` raises.
- VideoProcessor.PlanCrop: the float ratio and quotient are modelled as exact rational arithmetic. This agrees with the source for the default 9:16, whose ratio 0.5625 is exact in binary, but may differ for other targets at exact rounding boundaries.
- The OAuth flows, token files, `authenticate`, `test_connection`, `get_upload_status` and every Google API call are left out. Their outcomes are inputs: an `Outcome` for authentication, and the chunks returned by `next_chunk`.
- YouTubeUploader.Uploader.UploadVideo requires the chunk sequence to end in a response or an error. The network loop that never finishes is not modelled.
- YouTubeUploader.Report: a response missing `id` or `snippet.title` would raise a KeyError that is reported as failure. These cases are not modelled; a response always has both.
- Hashing, HTTP download with progress, ZIP extraction, ZIP writing and `testzip` are inputs:
  - the hex digest or a read failure;
  - whether the download and the extraction succeed;
  - the files unpacked;
  - whether the archive opens or is corrupt, and its entry names.
- SelfHeal.InstallFfmpeg: exceptions from `mkdir` and `shutil.move`, and a partial move, are not modelled. The extraction only adds files; overwriting an existing file with different contents is not distinguished, since files are modelled by path only. The chmod on non-Windows systems is left out of `install_yt_dlp`.
- `update_tool_checksums`, `get_system_info`, `create_environment_script` and `create_installer_script` are left out. They are logging or fixed template text.
- `create_package` (the zip writing around the selection and manifest) is an input to `CreateDevelopmentPackage`, as a function of the pattern list.
- The real file system is replaced by abstract inputs:
  - directory walking becomes a tree of listings;
  - `stat` becomes a function from path to size and modification time;
  - the clocks become the `created` text and a `Date`.
- Packager.PathMatch: `Path.match` is modelled for one-component patterns with `*` and `?`, folding ASCII letters only. Character classes and other Unicode case folding are left out.
- SelfHeal.InstallFfmpeg, SelfHeal.InstallYtDlp, ApiWizard.APIWizard.SaveApiKeysToEnvFile, ApiWizard.APIWizard.UpdateConfig: a download, extraction or write that fails after its target was opened may leave that target partial or truncated (`download_file` opens with `'wb'`, `extractall` can stop after earlier members, and `open(..., 'w')` truncates before writing). The model keeps the old state on these paths. The working set of commands is unchanged by a failed install, so no availability result differs.
- SelfHeal.SelfHealToolchain.constructor: the `mkdir` of the tools directory is not reflected in the machine: the tools directory itself is not added to the machine's paths, and no availability check depends on it.
- Text.ParseInt: accepts ASCII decimal digits only; Python's `int()` also accepts the other Unicode decimal digits.
- Paths: `pathlib` normalisation (`..`, repeated separators, drive letters) is left out. The base directory is one opaque component.
- ApiWizard.Merge: `yaml.safe_load` is not modelled. Content that is not a mapping, and yaml key order on dump, are left out. An empty or null document is treated as `{}`, as the `or {}` does. Loading and saving errors are one `writeOk` flag.
- ApiWizard.APIWizard.RunWizard: the console prompts, `print` output and the templates are left out. The typed answers are inputs.
- IntegrateFeatures.Installation.IntegrateNewFeatures: `os.path.expandvars` is left out; whether the installation exists is an input. File modes and the metadata that `copy2` preserves are left out, as are I/O errors, which the source does not catch. Module files beside the script are an input map.
- The dashboard, the desktop window and its background thread, and the smoke-test script are left out. They are UI, concurrency or scripts that need a real machine.
