// The self-healing toolchain: the checksum rule, where a tool is looked for and in which order,
// and what healing one tool or all of them does. Hashing, downloads, ZIP extraction and running
// a program are inputs: the machine's files and the commands that run (`--version` exits 0).

module SelfHeal {
  import opened Wrappers
  import opened Text
  import opened Paths

  /** One entry of the tool table. `extractPath` is in components. */
  datatype ToolInfo = ToolInfo(version: string, windowsUrl: string, checksum: string, executable: string,
                               extractPath: seq<string>, probeExecutable: Option<string>)

  /** The tool table: an insertion-ordered dictionary. */
  datatype Registry = Registry(names: seq<string>, info: map<string, ToolInfo>)

  predicate ValidRegistry(r: Registry)
  {
    (forall i, j :: 0 <= i < j < |r.names| ==> r.names[i] != r.names[j]) &&
    r.info.Keys == (set n | n in r.names)
  }

  const Ffmpeg := "ffmpeg"
  const YtDlp := "yt-dlp"
  const Placeholder := "sha256:..."
  const DefaultAlgorithm := "sha256"

  const DefaultRegistry := Registry([Ffmpeg, YtDlp], map[
    Ffmpeg := ToolInfo("6.1",
      "https://github.com/BtbN/FFmpeg-Builds/releases/download/latest/ffmpeg-master-latest-win64-gpl.zip",
      Placeholder, "ffmpeg.exe", ["ffmpeg-master-latest-win64-gpl", "bin"], Some("ffprobe.exe")),
    YtDlp := ToolInfo("2024.03.10",
      "https://github.com/yt-dlp/yt-dlp/releases/latest/download/yt-dlp.exe",
      Placeholder, "yt-dlp.exe", [], None)])

  lemma DefaultRegistryValid()
    ensures ValidRegistry(DefaultRegistry)
  {
    assert Ffmpeg[0] != YtDlp[0];
  }

  // ---------------------------------------------------------------------------
  // Checksums
  // ---------------------------------------------------------------------------

  /** `calculate_file_checksum`: `digest` is the hex digest, or `None` when reading fails. */
  function ChecksumString(algorithm: string, digest: Option<string>): (c: string)
    ensures digest.None? ==> c == ""
    ensures digest.Some? ==> c == algorithm + ":" + digest.value
  {
    if digest.None? then "" else algorithm + ":" + digest.value
  }

  /** `verify_checksum`: an empty or placeholder expectation passes without hashing. */
  function VerifyChecksum(expected: string, digest: Option<string>): (ok: bool)
    ensures expected == "" || expected == Placeholder ==> ok
    ensures expected != "" && expected != Placeholder ==>
              (ok <==> digest.Some? && expected == DefaultAlgorithm + ":" + digest.value)
  {
    if expected == "" || expected == Placeholder then true
    else ChecksumString(DefaultAlgorithm, digest) == expected
  }

  /** Against `sha256:<hex>`, a file verifies exactly when its digest is `<hex>`. */
  lemma VerifyChecksumDigest(hex: string, digest: string)
    requires DefaultAlgorithm + ":" + hex != Placeholder
    ensures VerifyChecksum(DefaultAlgorithm + ":" + hex, Some(digest)) <==> digest == hex
  {
    var e := DefaultAlgorithm + ":" + hex;
    if ChecksumString(DefaultAlgorithm, Some(digest)) == e {
      assert |digest| == |hex|;
      assert digest == e[|DefaultAlgorithm| + 1..];
    }
  }

  /** The algorithm is the text of a checksum string before its first ':'. */
  lemma ChecksumAlgorithm(algorithm: string, hex: string)
    requires ':' !in algorithm
    ensures BeforeFirst(ChecksumString(algorithm, Some(hex)), ":") == algorithm
  {
    BeforeFirstJoin(algorithm, ':', hex);
  }

  /** With the shipped table every checksum is the placeholder, so no tool is ever hashed. */
  lemma ShippedChecksumsSkip(name: string, digest: Option<string>)
    requires name in DefaultRegistry.info
    ensures VerifyChecksum(DefaultRegistry.info[name].checksum, digest)
  {
    assert name == Ffmpeg || name == YtDlp;
  }

  // ---------------------------------------------------------------------------
  // Where a tool is found
  // ---------------------------------------------------------------------------

  /** What the toolchain can observe: existing paths (as text) and the commands that run. */
  datatype Machine = Machine(files: set<string>, working: set<string>)

  /** `tools_path / executable`, as text. */
  function ToolsDirCommand(toolsPath: Path, info: ToolInfo): string
  {
    PathText(Child(toolsPath, info.executable))
  }

  /** `check_tool_availability`: the tools directory first, then the bare name on PATH. */
  function CheckToolAvailability(tools: Registry, toolsPath: Path, m: Machine, name: string): (r: (bool, string))
    ensures name !in tools.info ==> r == (false, "Unknown tool: " + name)
    ensures name in tools.info ==>
      var cmd := ToolsDirCommand(toolsPath, tools.info[name]);
      (r.0 <==> (cmd in m.files && cmd in m.working) || tools.info[name].executable in m.working)
    ensures name in tools.info && r.0 ==> r.1 in m.working
    ensures name in tools.info && !r.0 ==> r.1 == ""
  {
    if name !in tools.info then (false, "Unknown tool: " + name)
    else
      var exe := tools.info[name].executable;
      var cmd := ToolsDirCommand(toolsPath, tools.info[name]);
      if cmd in m.files && cmd in m.working then (true, cmd)
      else if exe in m.working then (true, exe)
      else (false, "")
  }

  /** A working copy in the tools directory is preferred to one on PATH. */
  lemma ToolsDirPreferred(tools: Registry, toolsPath: Path, m: Machine, name: string)
    requires name in tools.info
    requires ToolsDirCommand(toolsPath, tools.info[name]) in m.files
    requires ToolsDirCommand(toolsPath, tools.info[name]) in m.working
    ensures CheckToolAvailability(tools, toolsPath, m, name) == (true, ToolsDirCommand(toolsPath, tools.info[name]))
  {
  }

  /** Without a working tools-directory copy, PATH gives the bare executable name. */
  lemma PathFallback(tools: Registry, toolsPath: Path, m: Machine, name: string)
    requires name in tools.info
    requires ToolsDirCommand(toolsPath, tools.info[name]) !in m.files || ToolsDirCommand(toolsPath, tools.info[name]) !in m.working
    requires tools.info[name].executable in m.working
    ensures CheckToolAvailability(tools, toolsPath, m, name) == (true, tools.info[name].executable)
  {
  }

  /** `get_tool_path`. */
  function GetToolPath(tools: Registry, toolsPath: Path, m: Machine, name: string): (p: Option<string>)
    ensures p.Some? <==> CheckToolAvailability(tools, toolsPath, m, name).0
    ensures p.Some? ==> p.value == CheckToolAvailability(tools, toolsPath, m, name).1 && p.value in m.working
  {
    var (available, path) := CheckToolAvailability(tools, toolsPath, m, name);
    if available then Some(path) else None
  }

  // ---------------------------------------------------------------------------
  // Installing
  // ---------------------------------------------------------------------------

  /**
   * What one installation meets: whether the download and the extraction succeed, the files
   * the archive adds to the machine's when it is unpacked into the tools directory, and the
   * commands that run afterwards.
   */
  datatype InstallRun = InstallRun(downloadOk: bool, extractOk: bool, unpacked: set<string>, workingAfter: set<string>)

  /** The texts of `dir \ name` for each of `names`, in order. */
  function Texts(dir: Path, names: seq<string>): (r: seq<string>)
    ensures |r| == |names| && forall k :: 0 <= k < |names| ==> r[k] == PathText(Child(dir, names[k]))
  {
    seq(|names|, k requires 0 <= k < |names| => PathText(Child(dir, names[k])))
  }

  /** The files after moving each `from[k]` that exists to `to[k]`, one after the other. */
  function MoveAll(files: set<string>, from: seq<string>, to: seq<string>): (r: set<string>)
    requires |from| == |to|
    ensures forall f :: f in r ==> f in files || f in to
    ensures forall f :: f in files && f !in from ==> f in r
    decreases |from|
  {
    if from == [] then files
    else
      var n := |from|;
      var rest := MoveAll(files, from[..n - 1], to[..n - 1]);
      assert forall f :: f in to[..n - 1] ==> f in to;
      if from[n - 1] in rest then rest - {from[n - 1]} + {to[n - 1]} else rest
  }

  /** No source is a destination, and no two sources coincide. */
  predicate MovesApart(from: seq<string>, to: seq<string>)
  {
    (forall i, j :: 0 <= i < |from| && 0 <= j < |to| ==> from[i] != to[j]) &&
    (forall i, j :: 0 <= i < j < |from| ==> from[i] != from[j])
  }

  /** When the sources and destinations are apart, every file present at a source ends up at
      its destination and is gone from the source. */
  lemma {:induction false} MoveAllMoves(files: set<string>, from: seq<string>, to: seq<string>, k: int)
    requires |from| == |to| && MovesApart(from, to)
    requires 0 <= k < |from| && from[k] in files
    ensures to[k] in MoveAll(files, from, to)
    ensures from[k] !in MoveAll(files, from, to)
    decreases |from|
  {
    var n := |from|;
    var rest := MoveAll(files, from[..n - 1], to[..n - 1]);
    if k < n - 1 {
      assert from[..n - 1][k] == from[k] && to[..n - 1][k] == to[k];
      assert MovesApart(from[..n - 1], to[..n - 1]);
      MoveAllMoves(files, from[..n - 1], to[..n - 1], k);
    } else {
      assert from[k] !in from[..n - 1];
    }
  }

  const MovedExecutables: seq<string> := ["ffmpeg.exe", "ffprobe.exe"]

  /** Where the archive's executables are unpacked: the tool's `extract_path` under the tools directory. */
  function FfmpegExtractDir(tools: Registry, toolsPath: Path): Path
    requires Ffmpeg in tools.info
  {
    Path(toolsPath.parts + tools.info[Ffmpeg].extractPath)
  }

  /** The machine after a successful unpack: the archive's files are added to the machine's, and
      the executables found in the extract directory are moved to `tools\ffmpeg\bin`. */
  function AfterFfmpegUnpack(tools: Registry, toolsPath: Path, m: Machine, run: InstallRun): (r: Machine)
    requires Ffmpeg in tools.info
    ensures r.working == run.workingAfter
    ensures forall f :: f in m.files + run.unpacked && f !in Texts(FfmpegExtractDir(tools, toolsPath), MovedExecutables)
                        ==> f in r.files
  {
    var extract := FfmpegExtractDir(tools, toolsPath);
    var bin := Child(Child(toolsPath, "ffmpeg"), "bin");
    var unpacked := m.files + run.unpacked;
    var files := if PathText(extract) in unpacked
                 then MoveAll(unpacked + {PathText(Child(toolsPath, "ffmpeg")), PathText(bin)},
                              Texts(extract, MovedExecutables), Texts(bin, MovedExecutables))
                 else unpacked;
    Machine(files, run.workingAfter)
  }

  /** `install_ffmpeg`: its result, the machine afterwards, and whether the temporary ZIP was removed. */
  function InstallFfmpeg(tools: Registry, toolsPath: Path, m: Machine, run: InstallRun): (r: (bool, Machine, bool))
    requires Ffmpeg in tools.info
    ensures !run.downloadOk || !run.extractOk ==> r == (false, m, false)
    ensures run.downloadOk && run.extractOk ==> r.2 && r.0 == CheckToolAvailability(tools, toolsPath, r.1, Ffmpeg).0
    ensures run.downloadOk && run.extractOk ==> r.1 == AfterFfmpegUnpack(tools, toolsPath, m, run)
  {
    if !run.downloadOk || !run.extractOk then (false, m, false)
    else
      var after := AfterFfmpegUnpack(tools, toolsPath, m, run);
      (CheckToolAvailability(tools, toolsPath, after, Ffmpeg).0, after, true)
  }

  /** `install_yt_dlp`: the download goes straight into the tools directory. */
  function InstallYtDlp(tools: Registry, toolsPath: Path, m: Machine, run: InstallRun): (r: (bool, Machine))
    requires YtDlp in tools.info
    ensures !run.downloadOk ==> r == (false, m)
    ensures run.downloadOk ==> (r.0 == CheckToolAvailability(tools, toolsPath, r.1, YtDlp).0 &&
                                ToolsDirCommand(toolsPath, tools.info[YtDlp]) in r.1.files)
    ensures run.downloadOk ==> r.1 == Machine(m.files + {ToolsDirCommand(toolsPath, tools.info[YtDlp])}, run.workingAfter)
  {
    if !run.downloadOk then (false, m)
    else
      var after := Machine(m.files + {ToolsDirCommand(toolsPath, tools.info[YtDlp])}, run.workingAfter);
      (CheckToolAvailability(tools, toolsPath, after, YtDlp).0, after)
  }

  /** `heal_tool`: nothing is installed when the tool already works. */
  function HealTool(tools: Registry, toolsPath: Path, m: Machine, name: string, run: InstallRun): (r: (bool, Machine))
    requires Ffmpeg in tools.info && YtDlp in tools.info
    ensures CheckToolAvailability(tools, toolsPath, m, name).0 ==> r == (true, m)
    ensures name != Ffmpeg && name != YtDlp ==> r == (CheckToolAvailability(tools, toolsPath, m, name).0, m)
    ensures name !in tools.info ==> r == (false, m)
    ensures r.0 ==> CheckToolAvailability(tools, toolsPath, r.1, name).0
    ensures !CheckToolAvailability(tools, toolsPath, m, name).0 && name == Ffmpeg ==>
      r == (InstallFfmpeg(tools, toolsPath, m, run).0, InstallFfmpeg(tools, toolsPath, m, run).1)
    ensures !CheckToolAvailability(tools, toolsPath, m, name).0 && name == YtDlp ==>
      r == InstallYtDlp(tools, toolsPath, m, run)
  {
    if CheckToolAvailability(tools, toolsPath, m, name).0 then (true, m)
    else if name == Ffmpeg then
      var (ok, after, _) := InstallFfmpeg(tools, toolsPath, m, run);
      (ok, after)
    else if name == YtDlp then InstallYtDlp(tools, toolsPath, m, run)
    else (false, m)
  }

  /** The PATH-independent tools-directory probe for ffmpeg is never created by the move. */
  lemma FfmpegMoveMissesProbe(tools: Registry, toolsPath: Path, m: Machine, run: InstallRun)
    requires Ffmpeg in tools.info && tools.info[Ffmpeg].executable == "ffmpeg.exe"
    requires |toolsPath.parts| > 0
    ensures ToolsDirCommand(toolsPath, tools.info[Ffmpeg]) in AfterFfmpegUnpack(tools, toolsPath, m, run).files ==>
      ToolsDirCommand(toolsPath, tools.info[Ffmpeg]) in m.files + run.unpacked
  {
    var probe := ToolsDirCommand(toolsPath, tools.info[Ffmpeg]);
    var ffmpegDir := Child(toolsPath, "ffmpeg");
    var bin := Child(ffmpegDir, "bin");
    ChildText(toolsPath, "ffmpeg.exe");
    ChildText(toolsPath, "ffmpeg");
    ChildText(ffmpegDir, "bin");
    ChildText(bin, "ffmpeg.exe");
    ChildText(bin, "ffprobe.exe");
    assert |PathText(ffmpegDir)| != |probe|;
    assert PathText(bin)[|PathText(toolsPath)| + 7] == '\\' && probe[|PathText(toolsPath)| + 7] == '.';
    assert |PathText(Child(bin, "ffmpeg.exe"))| != |probe|;
    assert |PathText(Child(bin, "ffprobe.exe"))| != |probe|;
    var extract := FfmpegExtractDir(tools, toolsPath);
    var unpacked := m.files + run.unpacked;
    var seeded := unpacked + {PathText(ffmpegDir), PathText(bin)};
    var moved := Texts(bin, MovedExecutables);
    assert MovedExecutables[0] == "ffmpeg.exe" && MovedExecutables[1] == "ffprobe.exe";
    assert probe !in moved;
    if PathText(extract) in unpacked && probe in MoveAll(seeded, Texts(extract, MovedExecutables), moved) {
      assert probe in seeded;
    }
  }

  /** With the shipped `extract_path`, each executable present in the extract directory is moved:
      afterwards it is in `tools\ffmpeg\bin` and no longer in the extract directory. */
  lemma ShippedFfmpegMoves(tools: Registry, toolsPath: Path, m: Machine, run: InstallRun, k: int)
    requires Ffmpeg in tools.info && tools.info[Ffmpeg].extractPath == ["ffmpeg-master-latest-win64-gpl", "bin"]
    requires |toolsPath.parts| > 0 && 0 <= k < |MovedExecutables|
    requires PathText(FfmpegExtractDir(tools, toolsPath)) in m.files + run.unpacked
    requires PathText(Child(FfmpegExtractDir(tools, toolsPath), MovedExecutables[k])) in m.files + run.unpacked
    ensures PathText(Child(Child(Child(toolsPath, "ffmpeg"), "bin"), MovedExecutables[k])) in
              AfterFfmpegUnpack(tools, toolsPath, m, run).files
    ensures PathText(Child(FfmpegExtractDir(tools, toolsPath), MovedExecutables[k])) !in
              AfterFfmpegUnpack(tools, toolsPath, m, run).files
  {
    var extract := FfmpegExtractDir(tools, toolsPath);
    var bin := Child(Child(toolsPath, "ffmpeg"), "bin");
    assert bin == Path(toolsPath.parts + ["ffmpeg", "bin"]);
    assert |MovedExecutables[0]| == 10 && |MovedExecutables[1]| == 11;
    DeeperMovesApart(toolsPath, "ffmpeg-master-latest-win64-gpl", "bin", "ffmpeg", "bin", MovedExecutables);
    var unpacked := m.files + run.unpacked;
    MoveAllMoves(unpacked + {PathText(Child(toolsPath, "ffmpeg")), PathText(bin)},
                 Texts(extract, MovedExecutables), Texts(bin, MovedExecutables), k);
  }

  /** Two names moved between directories two levels below `top`: the paths are apart when the
      source directory's components are longer by more than the names differ. */
  lemma DeeperMovesApart(top: Path, a: string, b: string, c: string, d: string, exes: seq<string>)
    requires |top.parts| > 0 && |exes| == 2 && |exes[1]| == |exes[0]| + 1
    requires |a| + |b| > |c| + |d| + 1
    ensures MovesApart(Texts(Path(top.parts + [a, b]), exes), Texts(Path(top.parts + [c, d]), exes))
  {
    var src := Path(top.parts + [a, b]);
    var dst := Path(top.parts + [c, d]);
    DeeperLength(top, a, b);
    DeeperLength(top, c, d);
    var s0 := ChildLength(src, exes[0]);
    var s1 := ChildLength(src, exes[1]);
    var d0 := ChildLength(dst, exes[0]);
    var d1 := ChildLength(dst, exes[1]);
    var from, to := Texts(src, exes), Texts(dst, exes);
    assert |from[0]| == s0 && |from[1]| == s1 && |to[0]| == d0 && |to[1]| == d1;
    PairApart(from, to);
  }

  /** Two sources longer than both destinations, of different lengths, are apart from them. */
  lemma PairApart(from: seq<string>, to: seq<string>)
    requires |from| == 2 && |to| == 2 && |from[0]| != |from[1]|
    requires |from[0]| > |to[0]| && |from[0]| > |to[1]| && |from[1]| > |to[0]| && |from[1]| > |to[1]|
    ensures MovesApart(from, to)
  {
  }

  /** The length of a child path's text. */
  lemma ChildLength(dir: Path, name: string) returns (n: nat)
    requires |dir.parts| > 0
    ensures n == |PathText(Child(dir, name))| == |PathText(dir)| + 1 + |name|
  {
    ChildText(dir, name);
    n := |PathText(Child(dir, name))|;
  }

  /** The length of the text of a path two components below `dir`. */
  lemma DeeperLength(dir: Path, a: string, b: string)
    requires |dir.parts| > 0
    ensures |PathText(Path(dir.parts + [a, b]))| == |PathText(dir)| + 2 + |a| + |b|
  {
    ExtractDirText(dir, a, b);
  }

  /** The text of a path two components below `dir`. */
  lemma ExtractDirText(dir: Path, a: string, b: string)
    requires |dir.parts| > 0
    ensures PathText(Path(dir.parts + [a, b])) == PathText(dir) + "\\" + a + "\\" + b
  {
    assert dir.parts + [a, b] == (dir.parts + [a]) + [b];
    JoinLast(dir.parts, a);
    JoinLast(dir.parts + [a], b);
  }

  /**
   * `heal_all_tools` over the first `names`: the result map and the machine afterwards.
   * Each tool is healed on the machine that the previous tools left.
   */
  function HealAll(tools: Registry, toolsPath: Path, m: Machine, names: seq<string>, runs: map<string, InstallRun>)
    : (r: (map<string, bool>, Machine))
    requires Ffmpeg in tools.info && YtDlp in tools.info
    ensures r.0.Keys == set n | n in names
    decreases |names|
  {
    if names == [] then (map[], m)
    else
      var (results, mid) := HealAll(tools, toolsPath, m, names[..|names| - 1], runs);
      var name := names[|names| - 1];
      var (ok, after) := HealTool(tools, toolsPath, mid, name, RunFor(runs, name));
      assert forall n :: n in names <==> n in names[..|names| - 1] || n == name;
      (results[name := ok], after)
  }

  /** A tool without a recorded installation meets failed downloads. */
  function RunFor(runs: map<string, InstallRun>, name: string): InstallRun
  {
    if name in runs then runs[name] else InstallRun(false, false, {}, {})
  }

  /**
   * The result recorded for a tool is `heal_tool` on the machine the earlier tools left, and a
   * tool reported healed was available right after healing it.
   */
  lemma {:induction false} HealAllSound(tools: Registry, toolsPath: Path, m: Machine, names: seq<string>,
                                        runs: map<string, InstallRun>, k: nat)
    requires Ffmpeg in tools.info && YtDlp in tools.info
    requires k < |names| && forall j :: k < j < |names| ==> names[j] != names[k]
    ensures var before := HealAll(tools, toolsPath, m, names[..k], runs).1;
      HealAll(tools, toolsPath, m, names, runs).0[names[k]] == HealTool(tools, toolsPath, before, names[k], RunFor(runs, names[k])).0
    ensures HealAll(tools, toolsPath, m, names, runs).0[names[k]] ==>
      CheckToolAvailability(tools, toolsPath, HealAll(tools, toolsPath, m, names[..k + 1], runs).1, names[k]).0
    decreases |names|
  {
    var init := names[..|names| - 1];
    HealAllStep(tools, toolsPath, m, names, runs, k);
    if k < |names| - 1 {
      assert init[..k] == names[..k] && init[k] == names[k];
      assert names[|names| - 1] != names[k];
      assert HealAll(tools, toolsPath, m, names, runs).0[names[k]] == HealAll(tools, toolsPath, m, init, runs).0[names[k]];
      HealAllSound(tools, toolsPath, m, init, runs, k);
    } else {
      assert init == names[..k];
      assert names[..k + 1] == names;
    }
  }

  lemma HealAllStep(tools: Registry, toolsPath: Path, m: Machine, names: seq<string>, runs: map<string, InstallRun>, i: nat)
    requires Ffmpeg in tools.info && YtDlp in tools.info
    requires i < |names|
    ensures var (results, mid) := HealAll(tools, toolsPath, m, names[..i], runs);
      var (ok, after) := HealTool(tools, toolsPath, mid, names[i], RunFor(runs, names[i]));
      HealAll(tools, toolsPath, m, names[..i + 1], runs) == (results[names[i] := ok], after)
  {
    assert names[..i + 1][..i] == names[..i];
  }

  class SelfHealToolchain {
    const toolsPath: Path
    const tools: Registry
    /** The state of the machine the toolchain works on. */
    var machine: Machine

    constructor(basePath: string, machine: Machine)
      ensures toolsPath == Child(Path([basePath]), "tools") && tools == DefaultRegistry && this.machine == machine
    {
      toolsPath := Child(Path([basePath]), "tools");
      tools := DefaultRegistry;
      this.machine := machine;
    }

    predicate Valid()
      reads this
    {
      Ffmpeg in tools.info && YtDlp in tools.info && ValidRegistry(tools)
    }

    /** `heal_tool`, with `run` describing the installation if one is needed. */
    method HealOne(name: string, run: InstallRun) returns (ok: bool)
      requires Valid()
      modifies this
      ensures (ok, machine) == HealTool(tools, toolsPath, old(machine), name, run)
      ensures ok ==> CheckToolAvailability(tools, toolsPath, machine, name).0
    {
      var (available, _) := CheckToolAvailability(tools, toolsPath, machine, name);
      if available {
        return true;
      }
      if name == Ffmpeg {
        var (installed, after, _) := InstallFfmpeg(tools, toolsPath, machine, run);
        machine := after;
        ok := installed;
      } else if name == YtDlp {
        var (installed, after) := InstallYtDlp(tools, toolsPath, machine, run);
        machine := after;
        ok := installed;
      } else {
        ok := false;
      }
    }

    /** `heal_all_tools`: one result per tool in table order; `runs` gives each installation. */
    method HealAllTools(runs: map<string, InstallRun>) returns (results: map<string, bool>)
      requires Valid()
      modifies this
      ensures (results, machine) == HealAll(tools, toolsPath, old(machine), tools.names, runs)
      ensures results.Keys == tools.info.Keys
    {
      var table, start, names := tools, old(machine), tools.names;
      results := map[];
      var i := 0;
      while i < |names|
        invariant 0 <= i <= |names|
        invariant table == tools && names == table.names
        invariant (results, machine) == HealAll(table, toolsPath, start, names[..i], runs)
      {
        var name := names[i];
        HealAllStep(table, toolsPath, start, names, runs, i);
        var ok := HealOne(name, RunFor(runs, name));
        results := results[name := ok];
        i := i + 1;
      }
      assert names[..i] == names;
    }
  }
}
