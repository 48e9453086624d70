/** The vertical-crop geometry of `VideoProcessor`: choosing the source frame size from probe
    data, the centred crop to a target aspect ratio (with its symbolic fallback), the ffmpeg
    argument list built from it, and the accept/reject rule for the produced file.

    ffprobe and ffmpeg are not run: the probe result and the engine's exit status are inputs. */
module VideoProcessor {
  import opened Wrappers
  import opened Text

  /** One entry of ffprobe's `streams` list; a missing `width` or `height` reads as 0. */
  datatype Stream = Stream(codecType: string, width: int, height: int)

  /** The parsed ffprobe output, or `None` when ffprobe failed or its output did not parse.
      A probe result without a `streams` key is `Some([])`. */
  type Probe = Option<seq<Stream>>

  // ---------------------------------------------------------------------------
  // detect_aspect_ratio
  // ---------------------------------------------------------------------------

  /** A video stream whose both dimensions are non-zero. */
  predicate Usable(st: Stream)
  {
    st.codecType == "video" && st.width != 0 && st.height != 0
  }

  /** The (width, height) of the first usable video stream, or (16, 9) when there is none. */
  function DetectAspectRatio(streams: seq<Stream>): (r: (int, int))
    ensures r.0 != 0 && r.1 != 0
    ensures (forall i :: 0 <= i < |streams| ==> !Usable(streams[i])) ==> r == (16, 9)
    ensures forall i :: (0 <= i < |streams| && Usable(streams[i]) &&
                         (forall j :: 0 <= j < i ==> !Usable(streams[j]))) ==>
                          r == (streams[i].width, streams[i].height)
    decreases |streams|
  {
    if |streams| == 0 then (16, 9)
    else if Usable(streams[0]) then (streams[0].width, streams[0].height)
    else
      var r := DetectAspectRatio(streams[1..]);
      assert forall i :: 1 <= i < |streams| ==> streams[i] == streams[1..][i - 1];
      r
  }

  // ---------------------------------------------------------------------------
  // calculate_crop_parameters
  // ---------------------------------------------------------------------------

  /** A crop dimension: a pixel count, or an ffmpeg expression such as `iw`. */
  datatype CropValue = Pixels(n: int) | Expr(e: string)

  /** The dictionary `calculate_crop_parameters` returns; `original` holds
      (`original_width`, `original_height`) when those keys are present. */
  datatype CropParams = CropParams(
    cropX: int, cropY: int,
    cropWidth: CropValue, cropHeight: CropValue,
    original: Option<(int, int)>,
    targetWidth: int, targetHeight: int)

  /** Returned when anything on the way raises. */
  const Fallback: CropParams := CropParams(0, 0, Expr("iw"), Expr("ih"), None, 1080, 1920)

  /** `map(int, target.split(':'))` unpacked into two names: exactly two parts that both parse. */
  function ParseTargetAspect(target: string): Option<(int, int)>
  {
    var parts := Split(target, ':');
    if |parts| != 2 then None
    else
      match (ParseInt(parts[0]), ParseInt(parts[1]))
      case (Some(a), Some(b)) => Some((a, b))
      case _ => None
  }

  /** `w / h > tw / th` in exact arithmetic, for non-zero denominators of either sign. */
  predicate WiderThanTarget(w: int, h: int, tw: int, th: int)
    requires h != 0 && th != 0
  {
    if (h > 0) == (th > 0) then w * th > tw * h else w * th < tw * h
  }

  /** Python's `int()` of the exact quotient `n / d`: truncation toward zero. */
  function TruncDiv(n: int, d: int): int
    requires d != 0
  {
    var q := (if n < 0 then -n else n) / (if d < 0 then -d else d);
    if (n >= 0) == (d > 0) then q else -q
  }

  /** The crop for a source of `w` x `h` and a target of `tw`:`th`. A zero `th` raises at
      `tw / th`, and a zero `tw` raises at `w / target_ratio` in the second branch. */
  function PlanCrop(w: int, h: int, tw: int, th: int): (r: CropParams)
    requires h != 0
    ensures th == 0 ==> r == Fallback
    ensures th != 0 && !WiderThanTarget(w, h, tw, th) && tw == 0 ==> r == Fallback
    ensures th != 0 && (WiderThanTarget(w, h, tw, th) || tw != 0) ==> r.original == Some((w, h))
    ensures r.original.None? ==> r == Fallback
    ensures r.original.Some? ==> && r.original == Some((w, h))
                                 && r.cropWidth == Pixels(r.targetWidth) && r.cropHeight == Pixels(r.targetHeight)
                                 && (r.targetWidth == w || r.targetHeight == h)
                                 && r.cropX == (w - r.targetWidth) / 2 && r.cropY == (h - r.targetHeight) / 2
  {
    if th == 0 then Fallback
    else if WiderThanTarget(w, h, tw, th) then
      var cw := TruncDiv(h * tw, th);
      CropParams((w - cw) / 2, 0, Pixels(cw), Pixels(h), Some((w, h)), cw, h)
    else if tw == 0 then Fallback
    else
      var ch := TruncDiv(w * th, tw);
      CropParams(0, (h - ch) / 2, Pixels(w), Pixels(ch), Some((w, h)), w, ch)
  }

  /** `calculate_crop_parameters`: the frame size from the probe, the crop planned for the parsed
      target, and the fallback when the probe failed or the target does not parse. */
  function CalculateCropParameters(probe: Probe, targetAspect: string): (r: CropParams)
    ensures probe.None? || ParseTargetAspect(targetAspect).None? ==> r == Fallback
    ensures r.original.Some? ==> probe.Some? && r.original == Some(DetectAspectRatio(probe.value))
    ensures probe.Some? && ParseTargetAspect(targetAspect).Some? ==>
      r == PlanCrop(DetectAspectRatio(probe.value).0, DetectAspectRatio(probe.value).1,
                    ParseTargetAspect(targetAspect).value.0, ParseTargetAspect(targetAspect).value.1)
  {
    match probe
    case None => Fallback
    case Some(streams) =>
      var (w, h) := DetectAspectRatio(streams);
      match ParseTargetAspect(targetAspect)
      case None => Fallback
      case Some((tw, th)) => PlanCrop(w, h, tw, th)
  }

  // --- arithmetic helpers ------------------------------------------------------

  lemma MulPos(a: int, b: int)
    requires a > 0 && b > 0
    ensures a * b > 0
  {
  }

  lemma MulLeMono(a: int, b: int, c: int)
    requires a <= b && c > 0
    ensures a * c <= b * c
  {
    var k := b - a;
    assert b * c == a * c + k * c;
  }

  /** Floor division by a positive divisor, bounded from both sides. */
  lemma FloorDivBounds(n: int, d: int)
    requires d > 0
    ensures (n / d) * d <= n < (n / d + 1) * d
  {
    assert (n / d + 1) * d == (n / d) * d + d;
  }

  lemma DivNonNeg(n: int, d: int)
    requires d > 0 && n >= 0
    ensures n / d >= 0
  {
  }

  /** Floor division of a non-negative `n` below `w * d` stays below `w`. */
  lemma FloorBelow(n: int, d: int, w: int)
    requires d > 0 && n >= 0 && n < w * d
    ensures 0 <= n / d < w
  {
    var q := n / d;
    FloorDivBounds(n, d);
    DivNonNeg(n, d);
    if q >= w {
      MulLeMono(w, q, d);
    }
  }

  /** For non-negative operands truncation toward zero is floor division. */
  lemma TruncDivPos(n: int, d: int)
    requires n >= 0 && d > 0
    ensures TruncDiv(n, d) == n / d
  {
  }

  // --- the properties ------------------------------------------------------------

  /** A source wider than the target keeps its height; the width becomes the largest one
      not exceeding the target ratio, strictly narrower than the source, centred. */
  lemma PlanCropWider(w: int, h: int, tw: int, th: int)
    requires w > 0 && h > 0 && tw > 0 && th > 0
    requires w * th > h * tw
    ensures var c := PlanCrop(w, h, tw, th);
      && c.cropY == 0 && c.cropHeight == Pixels(h)
      && c.cropWidth.Pixels? && 0 <= c.cropWidth.n < w
      && c.cropWidth.n * th <= h * tw < (c.cropWidth.n + 1) * th
      && c.cropX == (w - c.cropWidth.n) / 2
  {
    var n := h * tw;
    MulPos(h, tw);
    TruncDivPos(n, th);
    var cw := n / th;
    FloorDivBounds(n, th);
    FloorBelow(n, th, w);
    assert WiderThanTarget(w, h, tw, th);
    assert PlanCrop(w, h, tw, th) == CropParams((w - cw) / 2, 0, Pixels(cw), Pixels(h), Some((w, h)), cw, h);
  }

  /** A source not wider than the target keeps its width; the height becomes the largest one
      not exceeding the target ratio, at most the source height, centred. */
  lemma PlanCropTaller(w: int, h: int, tw: int, th: int)
    requires w > 0 && h > 0 && tw > 0 && th > 0
    requires w * th <= h * tw
    ensures var c := PlanCrop(w, h, tw, th);
      && c.cropX == 0 && c.cropWidth == Pixels(w)
      && c.cropHeight.Pixels? && 0 <= c.cropHeight.n <= h
      && c.cropHeight.n * tw <= w * th < (c.cropHeight.n + 1) * tw
      && c.cropY == (h - c.cropHeight.n) / 2
  {
    var n := w * th;
    MulPos(w, th);
    TruncDivPos(n, tw);
    var ch := n / tw;
    FloorDivBounds(n, tw);
    assert (h + 1) * tw == h * tw + tw;
    FloorBelow(n, tw, h + 1);
    assert !WiderThanTarget(w, h, tw, th);
    assert PlanCrop(w, h, tw, th) == CropParams(0, (h - ch) / 2, Pixels(w), Pixels(ch), Some((w, h)), w, ch);
  }

  /** The crop rectangle lies inside the source, the two margins of the cropped axis differ by
      at most one pixel, at most one axis is cut (none at the target ratio), and the target size
      is the crop size. */
  lemma PlanCropInsideSource(w: int, h: int, tw: int, th: int)
    requires w > 0 && h > 0 && tw > 0 && th > 0
    ensures var c := PlanCrop(w, h, tw, th);
      && c.cropWidth.Pixels? && c.cropHeight.Pixels?
      && var (x, y, cw, ch) := (c.cropX, c.cropY, c.cropWidth.n, c.cropHeight.n);
      && 0 <= x && x + cw <= w && 0 <= y && y + ch <= h
      && 0 <= (w - cw - x) - x <= 1 && 0 <= (h - ch - y) - y <= 1
      && ((cw < w && ch == h) || (cw == w && ch <= h))
      && c.targetWidth == cw && c.targetHeight == ch
      && c.original == Some((w, h))
  {
    if w * th > h * tw {
      PlanCropWider(w, h, tw, th);
    } else {
      PlanCropTaller(w, h, tw, th);
    }
  }

  /** A source already at the target ratio takes the second branch and is not cropped. */
  lemma PlanCropAtTarget(w: int, h: int, tw: int, th: int)
    requires w > 0 && h > 0 && tw > 0 && th > 0
    requires w * th == h * tw
    ensures PlanCrop(w, h, tw, th) == CropParams(0, 0, Pixels(w), Pixels(h), Some((w, h)), w, h)
  {
    PlanCropTaller(w, h, tw, th);
    var ch := PlanCrop(w, h, tw, th).cropHeight.n;
    if ch < h {
      MulLeMono(ch + 1, h, tw);
    }
    assert ch == h;
  }

  lemma ParseDefaultAspect()
    ensures ParseTargetAspect("9:16") == Some((9, 16))
  {
    assert "9:16" == "9" + [':'] + "16";
    SplitFirstPiece("9", ':', "16");
    SplitNoSep("16", ':');
    assert Split("9:16", ':') == ["9", "16"];
    assert IntToString(9) == "9";
    assert NatToString(1) == "1";
    assert IntToString(16) == "16";
    ParseIntToString(9);
    ParseIntToString(16);
  }

  /** Every failure on the way yields the symbolic fallback, which has no `original_*` keys. */
  lemma CropFallbackCases(probe: Probe, target: string)
    requires || probe.None?
             || |Split(target, ':')| != 2
             || ParseInt(Split(target, ':')[0]).None?
             || ParseInt(Split(target, ':')[1]).None?
             || (ParseTargetAspect(target).Some? && ParseTargetAspect(target).value.1 == 0)
    ensures var c := CalculateCropParameters(probe, target);
      c == Fallback && c.cropX == 0 && c.cropY == 0 && c.cropWidth == Expr("iw")
      && c.cropHeight == Expr("ih") && c.original.None?
      && c.targetWidth == 1080 && c.targetHeight == 1920
  {
  }

  /** An audio stream ahead of the video stream is skipped when choosing the frame size. */
  lemma FullHdSize(streams: seq<Stream>)
    requires streams == [Stream("audio", 0, 0), Stream("video", 1920, 1080)]
    ensures DetectAspectRatio(streams) == (1920, 1080)
  {
    assert !Usable(streams[0]) && Usable(streams[1]);
  }

  /** A 1920x1080 source cropped to 9:16 gives 607x1080 at x=656. */
  lemma CropFullHd()
    ensures PlanCrop(1920, 1080, 9, 16) == CropParams(656, 0, Pixels(607), Pixels(1080), Some((1920, 1080)), 607, 1080)
  {
    assert WiderThanTarget(1920, 1080, 9, 16);
    assert TruncDiv(1080 * 9, 16) == 607;
  }

  // ---------------------------------------------------------------------------
  // process_to_9_16: argument list and filter string
  // ---------------------------------------------------------------------------

  /** `str()` of a crop dictionary value. */
  function CropValueText(v: CropValue): string
  {
    match v
    case Pixels(n) => IntToString(n)
    case Expr(e) => e
  }

  /** `<w>:<h>:<x>:<y>` of the crop filter. */
  function CropSpec(c: CropParams): string
  {
    CropValueText(c.cropWidth) + ":" + CropValueText(c.cropHeight) + ":" + IntToString(c.cropX) + ":" + IntToString(c.cropY)
  }

  /** The fixed scale-then-pad chain that follows the crop. */
  const ScaleAndPad: string := "scale=1080:1920:force_original_aspect_ratio=decrease,pad=1080:1920:(ow-iw)/2:(oh-ih)/2:black"

  /** The `-vf` chain: the crop, then the fixed scale and pad. */
  function VideoFilter(c: CropParams): (r: string)
    ensures ',' !in CropSpec(c) ==> Split(r, ',')[0] == "crop=" + CropSpec(c)
    ensures |"crop=" + CropSpec(c)| < |r| && r[|"crop=" + CropSpec(c)| + 1..] == ScaleAndPad
  {
    FilterChain("crop=" + CropSpec(c), ScaleAndPad)
  }

  /** A head and a tail joined by a comma: the head is the first piece, the tail the suffix. */
  function FilterChain(head: string, tail: string): (r: string)
    ensures ',' !in head ==> Split(r, ',')[0] == head
    ensures |head| + 1 <= |r| && r[|head| + 1..] == tail
  {
    var r := head + "," + tail;
    if ',' in head then r
    else
      SplitFirstPiece(head, ',', tail);
      r
  }

  /** The fixed codec, audio and container settings between the filter and `-y`. */
  const EncodeOptions: seq<string> := [
    "-c:v", "libx264",
    "-preset", "veryfast",
    "-crf", "23",
    "-pix_fmt", "yuv420p",
    "-c:a", "aac",
    "-b:a", "128k",
    "-ar", "48000",
    "-ac", "2",
    "-af", "loudnorm=I=-16:TP=-1.5:LRA=11",
    "-movflags", "+faststart"]

  /** Engine, input, duration limit and filter: the arguments ahead of the encoder settings. */
  function LeadArgs(ffmpegPath: string, inputPath: string, duration: int, c: CropParams): (r: seq<string>)
    ensures |r| == 7 && r[0] == ffmpegPath && r[1] == "-i" && r[2] == inputPath && r[3] == "-t"
    ensures r[4] == IntToString(duration) && r[5] == "-vf" && r[6] == VideoFilter(c)
  {
    var r := [ffmpegPath, "-i", inputPath, "-t", IntToString(duration), "-vf", VideoFilter(c)];
    assert r[1] == "-i" && r[3] == "-t" && r[5] == "-vf";
    r
  }

  /** The argument list: input, `-t <duration>`, the crop-then-scale filter, the fixed codec
      settings, and `-y <output>` last. */
  function FfmpegCommand(ffmpegPath: string, inputPath: string, outputPath: string, duration: int, c: CropParams)
    : (cmd: seq<string>)
    ensures && |cmd| == 29
            && cmd[0] == ffmpegPath && cmd[1] == "-i" && cmd[2] == inputPath
            && cmd[3] == "-t" && cmd[4] == IntToString(duration)
            && cmd[5] == "-vf" && cmd[6] == VideoFilter(c)
            && cmd[7..27] == EncodeOptions
            && cmd[27] == "-y" && cmd[28] == outputPath
  {
    var lead := LeadArgs(ffmpegPath, inputPath, duration, c);
    EncodeOptionsCount();
    ThreeParts(lead, EncodeOptions, ["-y", outputPath]);
    lead + EncodeOptions + ["-y", outputPath]
  }

  lemma EncodeOptionsCount()
    ensures |EncodeOptions| == 20
  {
  }

  /** Where the three parts of a concatenation sit. */
  lemma ThreeParts<T>(a: seq<T>, b: seq<T>, c: seq<T>)
    ensures var s := a + b + c;
      && |s| == |a| + |b| + |c|
      && s[..|a|] == a && s[|a|..|a| + |b|] == b && s[|a| + |b|..] == c
      && (forall k :: 0 <= k < |a| ==> s[k] == a[k])
      && (forall k :: 0 <= k < |c| ==> s[|a| + |b| + k] == c[k])
  {
  }

  /** How ffmpeg's launch ended: an exit status, or the launch itself raised. */
  datatype EngineRun = Exited(code: int) | LaunchFailed

  /** The command issued and the boolean `process_to_9_16` returns. */
  datatype Invocation = Invocation(command: seq<string>, success: bool)

  /** `process_to_9_16` always asks for the default "9:16" crop; success needs a zero exit
      status and the output file present. */
  function ProcessTo916(ffmpegPath: string, inputPath: string, outputPath: string, duration: int,
                        probe: Probe, run: EngineRun, outputExists: bool): (r: Invocation)
    ensures r.success <==> run.Exited? && run.code == 0 && outputExists
    ensures |r.command| == 29 && r.command[2] == inputPath && r.command[28] == outputPath
    ensures r.command[5] == "-vf" && r.command[6] == VideoFilter(CalculateCropParameters(probe, "9:16"))
    ensures r.command[3] == "-t" && r.command[4] == IntToString(duration)
    ensures r.command == FfmpegCommand(ffmpegPath, inputPath, outputPath, duration, CalculateCropParameters(probe, "9:16"))
  {
    var crop := CalculateCropParameters(probe, "9:16");
    Invocation(FfmpegCommand(ffmpegPath, inputPath, outputPath, duration, crop),
               run == Exited(0) && outputExists)
  }

  /** Reads `w`, `h`, `x`, `y` back out of a `crop=w:h:x:y,...` filter string. */
  function ReadCropFilter(filter: string): Option<(int, int, int, int)>
  {
    var head := Split(filter, ',')[0];
    if !("crop=" <= head) then None
    else
      var parts := Split(head[5..], ':');
      if |parts| != 4 then None
      else
        ParseFour(parts)
  }

  /** `int()` of each of four fields, failing if any does. */
  function ParseFour(parts: seq<string>): Option<(int, int, int, int)>
    requires |parts| == 4
  {
    match (ParseInt(parts[0]), ParseInt(parts[1]), ParseInt(parts[2]), ParseInt(parts[3]))
    case (Some(a), Some(b), Some(x), Some(y)) => Some((a, b, x, y))
    case _ => None
  }

  lemma ParseFourToString(a: int, b: int, x: int, y: int)
    ensures ParseFour([IntToString(a), IntToString(b), IntToString(x), IntToString(y)]) == Some((a, b, x, y))
  {
    ParseIntToString(a);
    ParseIntToString(b);
    ParseIntToString(x);
    ParseIntToString(y);
  }

  /** The parts of a rendered crop value never hold a separator of the filter syntax. */
  lemma IntToStringAvoids(n: int, c: char)
    requires c != '-' && !IsDigit(c)
    ensures c !in IntToString(n)
  {
    var s := IntToString(n);
    if n < 0 {
      var d := NatToString(-n);
      assert s == "-" + d;
    }
  }

  /** The pixel crop written into the filter is read back exactly. */
  lemma VideoFilterRoundTrip(c: CropParams)
    requires c.cropWidth.Pixels? && c.cropHeight.Pixels?
    ensures ReadCropFilter(VideoFilter(c)) == Some((c.cropWidth.n, c.cropHeight.n, c.cropX, c.cropY))
  {
    var a, b := IntToString(c.cropWidth.n), IntToString(c.cropHeight.n);
    var x, y := IntToString(c.cropX), IntToString(c.cropY);
    var parts := [a, b, x, y];
    IntToStringAvoids(c.cropWidth.n, ',');
    IntToStringAvoids(c.cropHeight.n, ',');
    IntToStringAvoids(c.cropX, ',');
    IntToStringAvoids(c.cropY, ',');
    IntToStringAvoids(c.cropWidth.n, ':');
    IntToStringAvoids(c.cropHeight.n, ':');
    IntToStringAvoids(c.cropX, ':');
    IntToStringAvoids(c.cropY, ':');
    var spec := CropSpec(c);
    JoinFour(a, b, x, y, ':');
    assert spec == Join(parts, ":");
    SplitJoin(parts, ':');
    JoinAvoids(parts, ":", ',');
    var head := "crop=" + spec;
    assert head[5..] == spec;
    ReadCropFilterHead(head, ScaleAndPad);
    ParseFourToString(c.cropWidth.n, c.cropHeight.n, c.cropX, c.cropY);
  }

  /** Only the text before the first comma is read. */
  lemma ReadCropFilterHead(head: string, rest: string)
    requires ',' !in head && "crop=" <= head && |Split(head[5..], ':')| == 4
    ensures ReadCropFilter(head + "," + rest) == ParseFour(Split(head[5..], ':'))
  {
    SplitFirstPiece(head, ',', rest);
  }

  /** With a probe, the default "9:16" target always yields a pixel crop planned from the
      detected dimensions. */
  lemma DefaultCropIsPlanned(streams: seq<Stream>)
    ensures var (w, h) := DetectAspectRatio(streams);
      && CalculateCropParameters(Some(streams), "9:16") == PlanCrop(w, h, 9, 16)
      && CalculateCropParameters(Some(streams), "9:16").cropWidth.Pixels?
      && CalculateCropParameters(Some(streams), "9:16").cropHeight.Pixels?
  {
    ParseDefaultAspect();
  }

  /** When the probe failed the filter crops nothing: the whole frame from the corner. */
  lemma ProcessTo916Unprobed(ffmpegPath: string, inputPath: string, outputPath: string, duration: int,
                             run: EngineRun, outputExists: bool)
    ensures var inv := ProcessTo916(ffmpegPath, inputPath, outputPath, duration, None, run, outputExists);
      |inv.command| == 29 && inv.command[5] == "-vf" && inv.command[6] == VideoFilter(Fallback)
      && CropSpec(Fallback) == "iw:ih:0:0"
  {
    assert CalculateCropParameters(None, "9:16") == Fallback;
    FallbackFilter();
  }

  /** The fallback renders as the whole frame taken from the corner. */
  lemma FallbackFilter()
    ensures CropSpec(Fallback) == "iw:ih:0:0"
  {
    assert IntToString(0) == "0";
  }

  /** With a probe, the filter carries the pixel crop planned for "9:16" from the detected
      dimensions, and it reads back exactly. */
  lemma ProcessTo916Probed(ffmpegPath: string, inputPath: string, outputPath: string, duration: int,
                           streams: seq<Stream>, run: EngineRun, outputExists: bool)
    ensures var inv := ProcessTo916(ffmpegPath, inputPath, outputPath, duration, Some(streams), run, outputExists);
      var (w, h) := DetectAspectRatio(streams);
      var c := PlanCrop(w, h, 9, 16);
      && |inv.command| == 29 && inv.command[5] == "-vf"
      && ReadCropFilter(inv.command[6]) == Some((c.cropWidth.n, c.cropHeight.n, c.cropX, c.cropY))
  {
    var c := CalculateCropParameters(Some(streams), "9:16");
    DefaultCropIsPlanned(streams);
    VideoFilterRoundTrip(c);
  }

  // ---------------------------------------------------------------------------
  // validate_output
  // ---------------------------------------------------------------------------

  /** What `os.path.exists` / `os.path.getsize` report for the output. */
  datatype FileStat = Missing | Present(size: int)

  /** `any(stream.get('codec_type') == 'video' for stream in streams)`. */
  function HasVideoStream(streams: seq<Stream>): (r: bool)
    ensures r <==> exists i :: 0 <= i < |streams| && streams[i].codecType == "video"
    decreases |streams|
  {
    if |streams| == 0 then false
    else if streams[0].codecType == "video" then true
    else
      var r := HasVideoStream(streams[1..]);
      assert forall i :: 1 <= i < |streams| ==> streams[i] == streams[1..][i - 1];
      r
  }

  /** Rejects a missing file, then one under 1024 bytes, then one the probe fails on or finds
      no video stream in. */
  function ValidateOutput(stat: FileStat, probe: Probe): (ok: bool)
    ensures ok <==> && stat.Present? && stat.size >= 1024 && probe.Some?
                    && exists i :: 0 <= i < |probe.value| && probe.value[i].codecType == "video"
  {
    match stat
    case Missing => false
    case Present(size) =>
      if size < 1024 then false
      else
        match probe
        case None => false
        case Some(streams) => HasVideoStream(streams)
  }

  /** 1024 bytes is the smallest size accepted, whatever the probe says. */
  lemma ValidateOutputSizeBoundary(probe: Probe)
    ensures !ValidateOutput(Present(1023), probe)
    ensures ValidateOutput(Present(1024), Some([Stream("video", 1080, 1920)]))
  {
  }
}
