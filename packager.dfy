// Model of packager.py: which files go into a TrendClip distribution, the manifest built
// from them, the validity rule for a finished package, and the package name.

module Packager {
  import opened Wrappers
  import opened Text
  import opened Paths

  // ---------------------------------------------------------------------------
  // The pattern lists of a packager
  // ---------------------------------------------------------------------------

  const DefaultIncludePatterns: seq<string> :=
    ["*.py", "*.ps1", "*.bat", "*.json", "*.yaml", "*.txt", "*.md", "*.css", "*.html"]

  const IncludeDirs: seq<string> := ["assets", "scripts", "tools", "docs"]

  const ExcludePatterns: seq<string> :=
    ["*.log", "*.tmp", "*.temp", "*.bak", "*.backup", "__pycache__", "*.pyc", "*.pyo",
     ".git", ".vscode", ".idea", "node_modules", "venv", ".venv", "env", ".env"]

  const ExcludeDirs: seq<string> := [".secrets", "logs", "downloads", "processed", "clips", "stats", "data"]

  const ImportantFiles: seq<string> :=
    ["Install_TrendClip_Desktop.ps1", "README.md", "LICENSE", "CHANGELOG.md", "DESIGN.md",
     "CONTRIBUTING.md", "requirements.txt", "config.yaml"]

  /** The lists a packager consults: its include globs, include directories, exclude
      patterns, exclude directories, and the important file names. */
  datatype Rules = Rules(includePatterns: seq<string>, includeDirs: seq<string>,
                         excludePatterns: seq<string>, excludeDirs: seq<string>,
                         importantFiles: seq<string>)

  const DefaultRules: Rules := Rules(DefaultIncludePatterns, IncludeDirs, ExcludePatterns, ExcludeDirs, ImportantFiles)

  /** The patterns `create_development_package` appends for the duration of its build. */
  const DevPatterns: seq<string> := ["*.py", "*.ps1", "*.json", "*.yaml", "*.md", "*.txt"]

  // ---------------------------------------------------------------------------
  // Glob matching as `PurePath.match` does it for a one-component pattern
  // ---------------------------------------------------------------------------

  /** `fnmatch` with `*` (any run of characters) and `?` (any one character). */
  predicate Glob(pat: string, s: string)
    decreases |pat| + |s|
  {
    if |pat| == 0 then |s| == 0
    else if pat[0] == '*' then Glob(pat[1..], s) || (|s| > 0 && Glob(pat, s[1..]))
    else |s| > 0 && (pat[0] == '?' || pat[0] == s[0]) && Glob(pat[1..], s[1..])
  }

  function LowerChar(c: char): char
  {
    if 'A' <= c <= 'Z' then (c as int + 32) as char else c
  }

  /** The Windows flavour folds case before comparing. */
  function Lower(s: string): (r: string)
    ensures |r| == |s| && forall i :: 0 <= i < |s| ==> r[i] == LowerChar(s[i])
  {
    seq(|s|, i requires 0 <= i < |s| => LowerChar(s[i]))
  }

  /** `path.match(pattern)` for a pattern without separators: the name against the glob. */
  predicate PathMatch(p: Path, pat: string)
  {
    Glob(Lower(pat), Lower(Name(p)))
  }

  predicate NoWildcard(s: string)
  {
    forall i :: 0 <= i < |s| ==> s[i] != '*' && s[i] != '?'
  }

  predicate EndsWith(s: string, suffix: string)
  {
    |suffix| <= |s| && s[|s| - |suffix|..] == suffix
  }

  /** A pattern without wildcards matches only itself. */
  lemma {:induction false} GlobLiteral(lit: string, s: string)
    requires NoWildcard(lit)
    ensures Glob(lit, s) <==> s == lit
    decreases |lit|
  {
    if |lit| > 0 && |s| > 0 {
      GlobLiteral(lit[1..], s[1..]);
      if s[0] == lit[0] && s[1..] == lit[1..] {
        assert s == [s[0]] + s[1..];
        assert lit == [lit[0]] + lit[1..];
      }
    }
  }

  /** `*` followed by a literal suffix matches exactly the strings ending in it. */
  lemma {:induction false} GlobStarSuffix(lit: string, s: string)
    requires NoWildcard(lit)
    ensures Glob("*" + lit, s) <==> EndsWith(s, lit)
    decreases |s|
  {
    var pat := "*" + lit;
    assert pat[1..] == lit;
    GlobLiteral(lit, s);
    if |s| > 0 {
      GlobStarSuffix(lit, s[1..]);
      if |lit| < |s| {
        assert s[1..][|s| - 1 - |lit|..] == s[|s| - |lit|..];
      } else if EndsWith(s, lit) {
        assert s[|s| - |lit|..] == s;
      }
    } else if EndsWith(s, lit) {
      assert lit == [];
    }
  }

  // ---------------------------------------------------------------------------
  // should_include_file
  // ---------------------------------------------------------------------------

  /** Some entry of `pats` occurs in `s` as a substring (`any(p in s for p in pats)`). */
  predicate AnyContained(s: string, pats: seq<string>)
    ensures AnyContained(s, pats) <==> exists i :: 0 <= i < |pats| && Contains(s, pats[i])
    decreases |pats|
  {
    if |pats| == 0 then false
    else if Contains(s, pats[0]) then true
    else
      var r := AnyContained(s, pats[1..]);
      assert forall i :: 1 <= i < |pats| ==> pats[i] == pats[1..][i - 1];
      r
  }

  /** Some pattern of `pats` matches the path. */
  predicate AnyMatch(p: Path, pats: seq<string>)
    ensures AnyMatch(p, pats) <==> exists i :: 0 <= i < |pats| && PathMatch(p, pats[i])
    decreases |pats|
  {
    if |pats| == 0 then false
    else if PathMatch(p, pats[0]) then true
    else
      var r := AnyMatch(p, pats[1..]);
      assert forall i :: 1 <= i < |pats| ==> pats[i] == pats[1..][i - 1];
      r
  }

  /** The ordered file filter: the two exclusion lists are consulted first on the whole path
      text, then the include globs on the name, the include directories on the path text,
      and the list of important file names. */
  predicate ShouldInclude(rules: Rules, p: Path)
    ensures ShouldInclude(rules, p) ==>
              !AnyContained(PathText(p), rules.excludePatterns) && !AnyContained(PathText(p), rules.excludeDirs)
    ensures ShouldInclude(rules, p) ==>
              AnyMatch(p, rules.includePatterns) || AnyContained(PathText(p), rules.includeDirs)
              || Name(p) in rules.importantFiles
  {
    var text := PathText(p);
    if AnyContained(text, rules.excludePatterns) then false
    else if AnyContained(text, rules.excludeDirs) then false
    else if AnyMatch(p, rules.includePatterns) then true
    else if AnyContained(text, rules.includeDirs) then true
    else Name(p) in rules.importantFiles
  }

  /** Exclusion wins over every include rule; otherwise a path is accepted exactly when its
      name matches an include glob, its text contains an include directory, or its name is
      one of the important files. */
  lemma ShouldIncludeSpec(rules: Rules, p: Path)
    ensures (exists i :: 0 <= i < |rules.excludePatterns| && Contains(PathText(p), rules.excludePatterns[i]))
            ==> !ShouldInclude(rules, p)
    ensures (exists i :: 0 <= i < |rules.excludeDirs| && Contains(PathText(p), rules.excludeDirs[i]))
            ==> !ShouldInclude(rules, p)
    ensures ShouldInclude(rules, p) <==>
      && (forall i :: 0 <= i < |rules.excludePatterns| ==> !Contains(PathText(p), rules.excludePatterns[i]))
      && (forall i :: 0 <= i < |rules.excludeDirs| ==> !Contains(PathText(p), rules.excludeDirs[i]))
      && ((exists i :: 0 <= i < |rules.includePatterns| && PathMatch(p, rules.includePatterns[i]))
          || (exists i :: 0 <= i < |rules.includeDirs| && Contains(PathText(p), rules.includeDirs[i]))
          || Name(p) in rules.importantFiles)
  {
    var text := PathText(p);
    var e1 := AnyContained(text, rules.excludePatterns);
    var e2 := AnyContained(text, rules.excludeDirs);
    var m := AnyMatch(p, rules.includePatterns);
    var d := AnyContained(text, rules.includeDirs);
    assert ShouldInclude(rules, p) == (!e1 && !e2 && (m || d || Name(p) in rules.importantFiles));
  }

  /** Exclude patterns are plain substrings: one holding `*` rejects only a path whose text
      holds a literal `*`. */
  lemma StarExcludesAreLiteral(rules: Rules, p: Path, i: int)
    requires 0 <= i < |rules.excludePatterns| && '*' in rules.excludePatterns[i]
    requires Contains(PathText(p), rules.excludePatterns[i])
    ensures '*' in PathText(p)
  {
    ContainsCharOf(PathText(p), rules.excludePatterns[i], '*');
  }

  /** A file is rejected when an exclude pattern occurs anywhere in its name. */
  lemma ExcludedByName(rules: Rules, dir: Path, name: string, i: int, k: int)
    requires 0 <= i < |rules.excludePatterns| && OccursAt(name, rules.excludePatterns[i], k)
    ensures !ShouldInclude(rules, Child(dir, name))
  {
    var p := Child(dir, name);
    ShouldIncludeSpec(rules, p);
    OccursAtContains(name, rules.excludePatterns[i], k);
    if |dir.parts| == 0 {
      assert p.parts == [name];
      assert PathText(p) == name;
    } else {
      JoinLast(dir.parts, name);
      ContainsAppendRight(PathText(dir) + "\\", name, rules.excludePatterns[i]);
    }
  }

  /** The exclude pattern "env" rejects every path whose text contains those letters, such as
      a `setup_env.bat` that the `*.bat` glob would otherwise accept. */
  lemma EnvRejectsSetupScript(dir: Path)
    ensures AnyMatch(Child(dir, "setup_env.bat"), DefaultRules.includePatterns)
    ensures !ShouldInclude(DefaultRules, Child(dir, "setup_env.bat"))
  {
    var name := "setup_env.bat";
    var low := Lower(name);
    assert low[9] == '.' && low[10] == 'b' && low[11] == 'a' && low[12] == 't';
    assert low[9..] == ".bat";
    assert DefaultRules.includePatterns[2] == "*" + ".bat";
    MatchedByExtension(Child(dir, name), DefaultRules.includePatterns, 2, ".bat");
    assert DefaultRules.excludePatterns[14] == "env";
    assert OccursAt(name, "env", 6);
    ExcludedByName(DefaultRules, dir, name, 14, 6);
  }

  /** Patterns already in the list change nothing when appended again. */
  lemma ExtraPatternsKeepSelection(rules: Rules, extra: seq<string>, p: Path)
    requires forall j :: 0 <= j < |extra| ==> extra[j] in rules.includePatterns
    ensures ShouldInclude(rules.(includePatterns := rules.includePatterns + extra), p) == ShouldInclude(rules, p)
  {
    var pats := rules.includePatterns;
    var all := pats + extra;
    ShouldIncludeSpec(rules, p);
    ShouldIncludeSpec(rules.(includePatterns := all), p);
    if exists i :: 0 <= i < |all| && PathMatch(p, all[i]) {
      var i :| 0 <= i < |all| && PathMatch(p, all[i]);
      if i >= |pats| {
        var k :| 0 <= k < |pats| && pats[k] == extra[i - |pats|];
        assert PathMatch(p, pats[k]);
      } else {
        assert all[i] == pats[i];
      }
    }
    forall i | 0 <= i < |pats| && PathMatch(p, pats[i])
      ensures exists j :: 0 <= j < |all| && PathMatch(p, all[j])
    {
      assert all[i] == pats[i];
    }
  }

  /** Every pattern the development build adds is already a default pattern, so the
      development package selects exactly the files the normal one does. */
  lemma DevPatternsKeepSelection(p: Path)
    ensures ShouldInclude(DefaultRules.(includePatterns := DefaultIncludePatterns + DevPatterns), p)
            == ShouldInclude(DefaultRules, p)
  {
    assert DevPatterns[0] == DefaultIncludePatterns[0];
    assert DevPatterns[1] == DefaultIncludePatterns[1];
    assert DevPatterns[2] == DefaultIncludePatterns[3];
    assert DevPatterns[3] == DefaultIncludePatterns[4];
    assert DevPatterns[4] == DefaultIncludePatterns[6];
    assert DevPatterns[5] == DefaultIncludePatterns[5];
    ExtraPatternsKeepSelection(DefaultRules, DevPatterns, p);
  }

  /** A star-prefixed lower-case extension glob matches exactly the names that end in that
      extension, ignoring case. */
  lemma ExtensionGlob(p: Path, ext: string)
    requires NoWildcard(ext) && Lower(ext) == ext
    ensures PathMatch(p, "*" + ext) <==> EndsWith(Lower(Name(p)), ext)
  {
    assert Lower("*" + ext) == "*" + ext;
    GlobStarSuffix(ext, Lower(Name(p)));
  }

  /** A name ending in a lower-case extension is matched by the glob `*` + extension. */
  lemma MatchedByExtension(p: Path, pats: seq<string>, i: int, ext: string)
    requires 0 <= i < |pats| && pats[i] == "*" + ext
    requires NoWildcard(ext) && Lower(ext) == ext && EndsWith(Lower(Name(p)), ext)
    ensures AnyMatch(p, pats)
  {
    ExtensionGlob(p, ext);
  }

  // ---------------------------------------------------------------------------
  // get_files_to_package over an abstract directory tree
  // ---------------------------------------------------------------------------

  /** What `iterdir` yields: a regular file, a directory with its own listing, or anything
      else (neither `is_file` nor `is_dir`). */
  datatype Entry =
    | FileEntry(name: string)
    | DirEntry(name: string, listing: Listing)
    | OtherEntry(name: string)

  /** A directory's entries in iteration order; `failsAt` is the position at which listing
      raised (permission or other error), if it did. */
  datatype Listing = Listing(entries: seq<Entry>, failsAt: Option<nat>)

  /** How many entries are handled before the listing raises or ends. */
  function Reached(l: Listing): (n: nat)
    ensures n <= |l.entries|
    ensures l.failsAt.Some? && l.failsAt.value < |l.entries| ==> n == l.failsAt.value
    ensures l.failsAt.None? ==> n == |l.entries|
  {
    match l.failsAt
    case None => |l.entries|
    case Some(k) => if k < |l.entries| then k else |l.entries|
  }

  /** The files the scan collects from one entry of `dir`; each passes the filter. */
  function ScanEntry(rules: Rules, dir: Path, e: Entry): (r: seq<Path>)
    ensures forall f :: f in r ==> ShouldInclude(rules, f)
    decreases e
  {
    match e
    case FileEntry(n) => if ShouldInclude(rules, Child(dir, n)) then [Child(dir, n)] else []
    case DirEntry(n, sub) =>
      if AnyContained(PathText(Child(dir, n)), rules.excludeDirs) then [] else ScanFrom(rules, Child(dir, n), sub, 0)
    case OtherEntry(_) => []
  }

  /** The files the scan collects from entries `i` onwards of one listing; every one of them
      passes the filter. */
  function ScanFrom(rules: Rules, dir: Path, l: Listing, i: nat): (r: seq<Path>)
    requires i <= Reached(l)
    ensures forall f :: f in r ==> ShouldInclude(rules, f)
    decreases l, Reached(l) - i
  {
    if i == Reached(l) then []
    else ScanEntry(rules, dir, l.entries[i]) + ScanFrom(rules, dir, l, i + 1)
  }

  /** `scan_directory(dir)`: appends the selected files below `dir` to `files`, descending
      into subdirectories whose path holds no excluded directory name. */
  method ScanDirectory(rules: Rules, dir: Path, l: Listing, files: seq<Path>) returns (out: seq<Path>)
    ensures out == files + ScanFrom(rules, dir, l, 0)
    decreases l
  {
    out := files;
    var i := 0;
    while i < |l.entries| && l.failsAt != Some(i)
      invariant 0 <= i <= Reached(l)
      invariant out + ScanFrom(rules, dir, l, i) == files + ScanFrom(rules, dir, l, 0)
    {
      var e := l.entries[i];
      var before := out;
      match e {
        case FileEntry(n) =>
          if ShouldInclude(rules, Child(dir, n)) {
            out := out + [Child(dir, n)];
          }
        case DirEntry(n, sub) =>
          if !AnyContained(PathText(Child(dir, n)), rules.excludeDirs) {
            out := ScanDirectory(rules, Child(dir, n), sub, out);
          }
        case OtherEntry(_) =>
      }
      assert out == before + ScanEntry(rules, dir, e);
      ScanFromStep(rules, dir, l, i);
      ConcatAssoc(before, ScanEntry(rules, dir, e), ScanFrom(rules, dir, l, i + 1));
      i := i + 1;
    }
  }

  /** `f` lies strictly below `dir`, and no directory between them has an excluded name in
      its path text: the scan never descends into an excluded directory. */
  predicate ScannedBelow(excludeDirs: seq<string>, dir: Path, f: Path)
  {
    && |dir.parts| < |f.parts|
    && f.parts[..|dir.parts|] == dir.parts
    && forall k :: |dir.parts| < k < |f.parts| ==> !AnyContained(PathText(Path(f.parts[..k])), excludeDirs)
  }

  predicate AllBelow(excludeDirs: seq<string>, dir: Path, fs: seq<Path>)
  {
    forall f :: f in fs ==> ScannedBelow(excludeDirs, dir, f)
  }

  lemma ScannedBelowChild(excludeDirs: seq<string>, dir: Path, n: string, f: Path)
    requires !AnyContained(PathText(Child(dir, n)), excludeDirs)
    requires ScannedBelow(excludeDirs, Child(dir, n), f)
    ensures ScannedBelow(excludeDirs, dir, f)
  {
    var c := Child(dir, n);
    assert f.parts[..|dir.parts|] == f.parts[..|c.parts|][..|dir.parts|];
    assert f.parts[..|c.parts|] == c.parts;
  }

  lemma {:induction false} ScanFromBelow(rules: Rules, dir: Path, l: Listing, i: nat)
    requires i <= Reached(l)
    ensures AllBelow(rules.excludeDirs, dir, ScanFrom(rules, dir, l, i))
    decreases l, Reached(l) - i
  {
    if i < Reached(l) {
      ScanFromStep(rules, dir, l, i);
      ScanEntryBelow(rules, dir, l.entries[i]);
      ScanFromBelow(rules, dir, l, i + 1);
      AllBelowConcat(rules.excludeDirs, dir, ScanEntry(rules, dir, l.entries[i]), ScanFrom(rules, dir, l, i + 1), ScanFrom(rules, dir, l, i));
    }
  }

  lemma AllBelowConcat(excludeDirs: seq<string>, dir: Path, a: seq<Path>, b: seq<Path>, c: seq<Path>)
    requires c == a + b
    requires AllBelow(excludeDirs, dir, a) && AllBelow(excludeDirs, dir, b)
    ensures AllBelow(excludeDirs, dir, c)
  {
  }

  lemma {:induction false} ScanEntryBelow(rules: Rules, dir: Path, e: Entry)
    ensures AllBelow(rules.excludeDirs, dir, ScanEntry(rules, dir, e))
    decreases e
  {
    match e
    case FileEntry(n) =>
    case DirEntry(n, sub) =>
      if !AnyContained(PathText(Child(dir, n)), rules.excludeDirs) {
        var found := ScanFrom(rules, Child(dir, n), sub, 0);
        ScanFromBelow(rules, Child(dir, n), sub, 0);
        forall f | f in found ensures ScannedBelow(rules.excludeDirs, dir, f) {
          ScannedBelowChild(rules.excludeDirs, dir, n, f);
        }
      }
    case OtherEntry(_) =>
  }

  lemma ScanFromStep(rules: Rules, dir: Path, l: Listing, i: nat)
    requires i < Reached(l)
    ensures ScanFrom(rules, dir, l, i) == ScanEntry(rules, dir, l.entries[i]) + ScanFrom(rules, dir, l, i + 1)
  {
  }

  /** A listing that raises at position `k` yields what the first `k` entries alone yield:
      the failure drops only that directory's remaining entries. */
  lemma {:induction false} ScanFailureTruncates(rules: Rules, dir: Path, l: Listing, k: nat, i: nat)
    requires l.failsAt == Some(k) && k <= |l.entries| && i <= k
    ensures ScanFrom(rules, dir, l, i) == ScanFrom(rules, dir, Listing(l.entries[..k], None), i)
    decreases k - i
  {
    var l' := Listing(l.entries[..k], None);
    assert Reached(l) == k && Reached(l') == k;
    if i < k {
      var e := l.entries[i];
      assert l'.entries[i] == e;
      ScanFailureTruncates(rules, dir, l, k, i + 1);
      ScanFromStep(rules, dir, l, i);
      ScanFromStep(rules, dir, l', i);
      calc {
        ScanFrom(rules, dir, l, i);
        ScanEntry(rules, dir, e) + ScanFrom(rules, dir, l, i + 1);
        ScanEntry(rules, dir, e) + ScanFrom(rules, dir, l', i + 1);
        ScanFrom(rules, dir, l', i);
      }
    }
  }

  // ---------------------------------------------------------------------------
  // create_package_manifest
  // ---------------------------------------------------------------------------

  /** What `stat` reports: the size and the rendered modification time. */
  datatype Stat = Stat(size: nat, modified: string)

  datatype FileInfo = FileInfo(path: string, size: nat, modified: string)

  datatype Manifest = Manifest(version: string, created: string, basePath: string,
                               files: seq<FileInfo>, directories: seq<string>, totalSize: int)

  /** The running state of the manifest loop. */
  datatype Tally = Tally(files: seq<FileInfo>, directories: seq<string>, totalSize: int)

  /** `str(relative path)`: "." for the base itself. */
  function RelativeText(rest: seq<string>): string
  {
    if |rest| == 0 then "." else Join(rest, "\\")
  }

  /** One iteration: a file whose stat raises, or that is not below the base (so that
      `relative_to` raises), is skipped entirely; otherwise its entry and size are recorded,
      and its parent directory relative to the base is added unless empty or already listed.
      The base itself is recorded as ".", but its parent lies outside the base, so the
      directory update raises and is lost. */
  function Step(base: Path, stat: Path -> Option<Stat>, t: Tally, f: Path): (r: Tally)
    ensures !Recorded(base, stat, f) ==> r == t
    ensures Recorded(base, stat, f) ==>
              && r.files == t.files + [FileInfo(RelativeText(f.parts[|base.parts|..]), stat(f).value.size, stat(f).value.modified)]
              && r.totalSize == t.totalSize + stat(f).value.size
    ensures t.directories <= r.directories && |r.directories| <= |t.directories| + 1
  {
    match stat(f)
    case None => t
    case Some(st) =>
      if !(base.parts <= f.parts) then t
      else
        var rest := f.parts[|base.parts|..];
        var info := FileInfo(RelativeText(rest), st.size, st.modified);
        var dirs :=
          if |rest| == 0 then t.directories
          else
            var d := RelativeText(rest[..|rest| - 1]);
            if |d| > 0 && d !in t.directories then t.directories + [d] else t.directories;
        Tally(t.files + [info], dirs, t.totalSize + st.size)
  }

  /** One iteration of the manifest loop on its three variables. */
  method RecordFile(base: Path, stat: Path -> Option<Stat>, infos: seq<FileInfo>, dirs: seq<string>, total: int, f: Path)
    returns (infos': seq<FileInfo>, dirs': seq<string>, total': int)
    ensures Tally(infos', dirs', total') == Step(base, stat, Tally(infos, dirs, total), f)
  {
    infos', dirs', total' := infos, dirs, total;
    match stat(f) {
      case None =>
      case Some(st) =>
        if base.parts <= f.parts {
          var rest := f.parts[|base.parts|..];
          infos' := infos + [FileInfo(RelativeText(rest), st.size, st.modified)];
          total' := total + st.size;
          if |rest| > 0 {
            var d := RelativeText(rest[..|rest| - 1]);
            if |d| > 0 && d !in dirs {
              dirs' := dirs + [d];
            }
          }
        }
    }
  }

  /** The loop's state after the given files. */
  function TallyOf(base: Path, stat: Path -> Option<Stat>, files: seq<Path>): (r: Tally)
    ensures |r.files| <= |files| && |r.directories| <= |files| && r.totalSize >= 0
    decreases |files|
  {
    if |files| == 0 then Tally([], [], 0)
    else Step(base, stat, TallyOf(base, stat, files[..|files| - 1]), files[|files| - 1])
  }

  /** Whether the manifest records a file: its stat succeeds and it lies below the base. */
  predicate Recorded(base: Path, stat: Path -> Option<Stat>, f: Path)
  {
    stat(f).Some? && base.parts <= f.parts
  }

  /** The entries of the recorded files, in input order. */
  function RecordedInfos(base: Path, stat: Path -> Option<Stat>, files: seq<Path>): seq<FileInfo>
    decreases |files|
  {
    if |files| == 0 then []
    else
      var f := files[|files| - 1];
      RecordedInfos(base, stat, files[..|files| - 1])
        + (if Recorded(base, stat, f)
           then [FileInfo(RelativeText(f.parts[|base.parts|..]), stat(f).value.size, stat(f).value.modified)]
           else [])
  }

  /** The parent directories the loop tries to add, in input order, duplicates included. */
  function ParentDirs(base: Path, stat: Path -> Option<Stat>, files: seq<Path>): seq<string>
    decreases |files|
  {
    if |files| == 0 then []
    else
      var f := files[|files| - 1];
      ParentDirs(base, stat, files[..|files| - 1]) + ParentOf(base, stat, f)
  }

  /** The parent directory one file contributes, if it is recorded below the base and its
      parent is non-empty. */
  function ParentOf(base: Path, stat: Path -> Option<Stat>, f: Path): seq<string>
  {
    if Recorded(base, stat, f) && |f.parts| > |base.parts|
       && |RelativeText(f.parts[|base.parts|..|f.parts| - 1])| > 0
    then [RelativeText(f.parts[|base.parts|..|f.parts| - 1])]
    else []
  }

  function SumSizes(infos: seq<FileInfo>): int
    decreases |infos|
  {
    if |infos| == 0 then 0 else SumSizes(infos[..|infos| - 1]) + infos[|infos| - 1].size
  }

  predicate NoDuplicates(xs: seq<string>)
  {
    forall i, j :: 0 <= i < j < |xs| ==> xs[i] != xs[j]
  }

  /** The first occurrence of every element, in order. */
  function DedupFirst(xs: seq<string>): (r: seq<string>)
    ensures NoDuplicates(r)
    ensures forall x :: x in r <==> x in xs
    decreases |xs|
  {
    if |xs| == 0 then []
    else
      var init := xs[..|xs| - 1];
      var last := xs[|xs| - 1];
      var d := DedupFirst(init);
      assert xs == init + [last];
      if last in init then d else d + [last]
  }

  /** The manifest's file list is exactly the recorded files in input order, and its total
      is the sum of their sizes. */
  lemma {:induction false} TallyFiles(base: Path, stat: Path -> Option<Stat>, files: seq<Path>)
    ensures TallyOf(base, stat, files).files == RecordedInfos(base, stat, files)
    ensures TallyOf(base, stat, files).totalSize == SumSizes(TallyOf(base, stat, files).files)
    decreases |files|
  {
    if |files| > 0 {
      var init := files[..|files| - 1];
      var f := files[|files| - 1];
      TallyFiles(base, stat, init);
      var t := TallyOf(base, stat, init);
      var t' := TallyOf(base, stat, files);
      if Recorded(base, stat, f) {
        assert t'.files == t.files + [t'.files[|t'.files| - 1]];
        assert t'.files[..|t'.files| - 1] == t.files;
      } else {
        assert t' == t;
      }
    }
  }

  /** The manifest's directory list holds the first occurrence of each recorded parent
      directory, in order, and so has no duplicates. */
  lemma {:induction false} TallyDirectories(base: Path, stat: Path -> Option<Stat>, files: seq<Path>)
    ensures TallyOf(base, stat, files).directories == DedupFirst(ParentDirs(base, stat, files))
    ensures NoDuplicates(TallyOf(base, stat, files).directories)
    decreases |files|
  {
    if |files| > 0 {
      var init := files[..|files| - 1];
      var f := files[|files| - 1];
      TallyDirectories(base, stat, init);
      var t := TallyOf(base, stat, init);
      var ps := ParentDirs(base, stat, init);
      assert TallyOf(base, stat, files) == Step(base, stat, t, f);
      StepDirectories(base, stat, t, f);
      var p := ParentOf(base, stat, f);
      assert ParentDirs(base, stat, files) == ps + p;
      if p == [] {
        assert ps + p == ps;
      } else {
        assert p == [p[0]];
        assert p[0] in t.directories <==> p[0] in ps;
        DedupSnoc(ps, p[0]);
      }
    }
  }

  /** One step adds the file's parent directory unless it is already listed. */
  lemma StepDirectories(base: Path, stat: Path -> Option<Stat>, t: Tally, f: Path)
    ensures var p := ParentOf(base, stat, f);
      Step(base, stat, t, f).directories ==
        if p == [] || p[0] in t.directories then t.directories else t.directories + p
  {
    if Recorded(base, stat, f) && |f.parts| > |base.parts| {
      var rest := f.parts[|base.parts|..];
      assert rest[..|rest| - 1] == f.parts[|base.parts|..|f.parts| - 1];
    }
  }

  lemma DedupSnoc(xs: seq<string>, x: string)
    ensures DedupFirst(xs + [x]) == if x in xs then DedupFirst(xs) else DedupFirst(xs) + [x]
  {
    assert (xs + [x])[..|xs|] == xs;
  }

  /** A recorded file's path is reported relative to the base. */
  lemma RecordedPathRelative(base: Path, stat: Path -> Option<Stat>, f: Path)
    requires Recorded(base, stat, f) && |f.parts| > |base.parts|
    ensures TallyOf(base, stat, [f]).files == [FileInfo(Join(f.parts[|base.parts|..], "\\"), stat(f).value.size, stat(f).value.modified)]
  {
    assert [f][..0] == [];
  }

  /** A file of the base directory itself has "." as its relative parent, which is recorded. */
  lemma TopLevelParentIsDot(base: Path, stat: Path -> Option<Stat>, n: string)
    requires stat(Child(base, n)).Some?
    ensures TallyOf(base, stat, [Child(base, n)]).directories == ["."]
  {
    var f := Child(base, n);
    assert [f][..0] == [];
    assert f.parts[|base.parts|..] == [n];
  }

  // ---------------------------------------------------------------------------
  // validate_package
  // ---------------------------------------------------------------------------

  /** What opening the zip reports: it cannot be read at all, or `testzip` finds a bad member
      (`corrupt`) and `namelist` gives the entry names. */
  datatype Archive = Unopenable | Zip(corrupt: bool, names: seq<string>)

  datatype PackageFile = NoFile | PackageOnDisk(size: nat, archive: Archive)

  /** The outcome of validation: `Passed` is the `True` return, every other verdict is a
      logged `False`. */
  datatype Verdict = Passed | NotFound | TooLarge | Unreadable | Corrupt | MissingEssential(name: string)

  /** 500 MiB: the size is divided by 1024 * 1024 and compared against 500. */
  const MaxPackageBytes: nat := 500 * 1024 * 1024

  const EssentialFiles: seq<string> := ["Install_TrendClip_Desktop.ps1", "README.md", "LICENSE"]

  /** Some name in the archive contains `e`. */
  predicate NamedIn(e: string, names: seq<string>)
  {
    exists j :: 0 <= j < |names| && Contains(names[j], e)
  }

  /** The first essential name no archive entry contains. */
  function FirstMissing(essentials: seq<string>, names: seq<string>): (r: Option<string>)
    ensures r.None? <==> forall i :: 0 <= i < |essentials| ==> NamedIn(essentials[i], names)
    ensures r.Some? ==> r.value in essentials && !NamedIn(r.value, names)
    decreases |essentials|
  {
    if |essentials| == 0 then None
    else if !NamedIn(essentials[0], names) then Some(essentials[0])
    else
      var r := FirstMissing(essentials[1..], names);
      assert forall i :: 1 <= i < |essentials| ==> essentials[i] == essentials[1..][i - 1];
      r
  }

  /** The checks in order: existence, size, opening, integrity, essential names. */
  function ValidatePackage(f: PackageFile): (v: Verdict)
    ensures v == NotFound <==> f.NoFile?
    ensures v == TooLarge <==> f.PackageOnDisk? && f.size > MaxPackageBytes
    ensures v == Unreadable <==> f.PackageOnDisk? && f.size <= MaxPackageBytes && f.archive.Unopenable?
    ensures v == Corrupt <==> f.PackageOnDisk? && f.size <= MaxPackageBytes && f.archive.Zip? && f.archive.corrupt
    ensures v.MissingEssential? ==>
      && f.PackageOnDisk? && f.size <= MaxPackageBytes && f.archive.Zip? && !f.archive.corrupt
      && v.name in EssentialFiles && !NamedIn(v.name, f.archive.names)
    ensures v == Passed <==>
      && f.PackageOnDisk? && f.size <= MaxPackageBytes && f.archive.Zip? && !f.archive.corrupt
      && forall i :: 0 <= i < |EssentialFiles| ==> NamedIn(EssentialFiles[i], f.archive.names)
  {
    match f
    case NoFile => NotFound
    case PackageOnDisk(size, archive) =>
      if size > MaxPackageBytes then TooLarge
      else
        match archive
        case Unopenable => Unreadable
        case Zip(corrupt, names) =>
          if corrupt then Corrupt
          else
            match FirstMissing(EssentialFiles, names)
            case Some(e) => MissingEssential(e)
            case None => Passed
  }

  /** A package of exactly 500 MiB is not too large. */
  lemma ValidatePackageSizeBoundary(names: seq<string>)
    ensures ValidatePackage(PackageOnDisk(MaxPackageBytes, Zip(false, names))) != TooLarge
    ensures ValidatePackage(PackageOnDisk(MaxPackageBytes + 1, Zip(false, names))) == TooLarge
    ensures MaxPackageBytes == 524288000
  {
  }

  /** Essential names are matched as substrings, so entries inside a folder also count. */
  lemma EssentialInSubfolder(size: nat, folder: string, names: seq<string>)
    requires size <= MaxPackageBytes
    requires |names| == |EssentialFiles| && forall i :: 0 <= i < |names| ==> names[i] == folder + EssentialFiles[i]
    ensures ValidatePackage(PackageOnDisk(size, Zip(false, names))) == Passed
  {
    forall i | 0 <= i < |EssentialFiles| ensures NamedIn(EssentialFiles[i], names) {
      ContainsPrefix(EssentialFiles[i], EssentialFiles[i]);
      ContainsAppendRight(folder, EssentialFiles[i], EssentialFiles[i]);
    }
  }

  // ---------------------------------------------------------------------------
  // get_package_name
  // ---------------------------------------------------------------------------

  /** A calendar date as `datetime` holds it. */
  datatype Date = Date(year: nat, month: nat, day: nat)

  predicate ValidDate(d: Date)
  {
    1 <= d.year <= 9999 && 1 <= d.month <= 12 && 1 <= d.day <= 31
  }

  /** `strftime("%Y%m%d")`. */
  function DateStamp(d: Date): (s: string)
    requires ValidDate(d)
    ensures |s| == 8 && AllDigits(s)
  {
    FixedDigits(d.year, 4) + FixedDigits(d.month, 2) + FixedDigits(d.day, 2)
  }

  /** Where the three parts of `<prefix><version>_<stamp>` sit. */
  lemma NameParts(prefix: string, version: string, stamp: string)
    ensures var n := prefix + version + "_" + stamp;
      && |n| == |prefix| + |version| + 1 + |stamp|
      && n[..|prefix|] == prefix && n[|prefix|..|prefix| + |version|] == version
      && n[|prefix| + |version|] == '_' && n[|n| - |stamp|..] == stamp
  {
  }

  /** The stamp reads back as year, month and day. */
  lemma DateStampRoundTrip(d: Date)
    requires ValidDate(d)
    ensures var s := DateStamp(d);
      DigitsValue(s[..4]) == d.year && DigitsValue(s[4..6]) == d.month && DigitsValue(s[6..]) == d.day
  {
    var s := DateStamp(d);
    assert s[..4] == FixedDigits(d.year, 4);
    assert s[4..6] == FixedDigits(d.month, 2);
    assert s[6..] == FixedDigits(d.day, 2);
    assert Pow10(2) == 100;
    assert Pow10(4) == 10000;
    FixedDigitsValue(d.year, 4);
    FixedDigitsValue(d.month, 2);
    FixedDigitsValue(d.day, 2);
  }

  // ---------------------------------------------------------------------------
  // The packager object
  // ---------------------------------------------------------------------------

  class TrendClipPackager {
    const basePath: string
    const version: string
    var includePatterns: seq<string>
    const includeDirs: seq<string>
    const excludePatterns: seq<string>
    const excludeDirs: seq<string>

    constructor(basePath: string, version: string)
      ensures this.basePath == basePath && this.version == version
      ensures CurrentRules() == DefaultRules
    {
      this.basePath := basePath;
      this.version := version;
      includePatterns := DefaultIncludePatterns;
      includeDirs := IncludeDirs;
      excludePatterns := ExcludePatterns;
      excludeDirs := ExcludeDirs;
    }

    function Base(): Path
    {
      Path([basePath])
    }

    /** The lists `should_include_file` consults in the packager's current state. */
    function CurrentRules(): Rules
      reads this
    {
      Rules(includePatterns, includeDirs, excludePatterns, excludeDirs, ImportantFiles)
    }

    /** `TrendClipOne_<version>_<YYYYMMDD>`. */
    function GetPackageName(today: Date): (name: string)
      requires ValidDate(today)
      ensures |name| == 13 + |version| + 9
      ensures name[..13] == "TrendClipOne_"
      ensures name[13..13 + |version|] == version && name[13 + |version|] == '_'
      ensures name[|name| - 8..] == DateStamp(today)
    {
      var prefix := "TrendClipOne_";
      assert |prefix| == 13;
      NameParts(prefix, version, DateStamp(today));
      prefix + version + "_" + DateStamp(today)
    }

    /** The files below the base directory that go into the package. */
    method GetFilesToPackage(root: Listing) returns (files: seq<Path>)
      ensures files == ScanFrom(CurrentRules(), Base(), root, 0)
      ensures forall f :: f in files ==> ShouldInclude(CurrentRules(), f)
      ensures forall f :: f in files ==> ScannedBelow(excludeDirs, Base(), f)
    {
      files := ScanDirectory(CurrentRules(), Base(), root, []);
      ScanFromBelow(CurrentRules(), Base(), root, 0);
    }

    /** `create_package_manifest`; `created` is the clock reading and `stat` the file
        system's answer for each path. */
    method CreatePackageManifest(created: string, stat: Path -> Option<Stat>, files: seq<Path>) returns (m: Manifest)
      ensures m.version == version && m.created == created && m.basePath == basePath
      ensures m.files == RecordedInfos(Base(), stat, files)
      ensures m.totalSize == SumSizes(m.files)
      ensures m.directories == DedupFirst(ParentDirs(Base(), stat, files))
      ensures NoDuplicates(m.directories)
    {
      var infos: seq<FileInfo> := [];
      var dirs: seq<string> := [];
      var total := 0;
      var i := 0;
      while i < |files|
        invariant 0 <= i <= |files|
        invariant Tally(infos, dirs, total) == TallyOf(Base(), stat, files[..i])
      {
        assert files[..i + 1][..i] == files[..i];
        infos, dirs, total := RecordFile(Base(), stat, infos, dirs, total, files[i]);
        i := i + 1;
      }
      assert files[..|files|] == files;
      TallyFiles(Base(), stat, files);
      TallyDirectories(Base(), stat, files);
      m := Manifest(version, created, basePath, infos, dirs, total);
    }

    /** Builds with the development patterns appended; the previous patterns come back only
        when the build returns normally, and a raised error is passed on with the extended
        list left in place. */
    method CreateDevelopmentPackage(createPackage: seq<string> -> Result<string, string>) returns (r: Result<string, string>)
      modifies this
      ensures r == createPackage(old(includePatterns) + DevPatterns)
      ensures r.Ok? ==> includePatterns == old(includePatterns)
      ensures r.Err? ==> includePatterns == old(includePatterns) + DevPatterns
    {
      var original := includePatterns;
      includePatterns := includePatterns + DevPatterns;
      r := createPackage(includePatterns);
      if r.Ok? {
        includePatterns := original;
      }
    }
  }
}
