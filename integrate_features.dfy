// Integrating new features into an installation: copying the new modules, appending missing
// requirements to `requirements.txt`, and creating `config.yaml` only when there is none. The
// installation directory is a map from file name to file text.

module IntegrateFeatures {
  import opened Text

  /** The names and texts the integration works with. */
  datatype Layout = Layout(modules: seq<string>, requirementsFile: string, configFile: string,
                           requirements: seq<string>, defaultConfig: string)

  /** The module files and the two other files are distinct names. */
  predicate ValidLayout(l: Layout)
  {
    l.requirementsFile != l.configFile && l.requirementsFile !in l.modules && l.configFile !in l.modules
  }

  const DefaultConfig :=
    "# TrendClip Desktop Configuration\n" +
    "version: \"1.9.0-desktop\"\n" +
    "currency: \"GBP\"\n" +
    "\n" +
    "app:\n" +
    "  port: 0  # Auto-assign\n" +
    "  bind: \"127.0.0.1\"\n" +
    "  title: \"TrendClip Desktop\"\n" +
    "\n" +
    "paths:\n" +
    "  base: \"%USERPROFILE%/TrendClipOne\"\n" +
    "  downloads: \"downloads\"\n" +
    "  clips: \"clips\"\n" +
    "  logs: \"logs\"\n" +
    "  stats: \"stats\"\n" +
    "  tools: \"tools\"\n" +
    "\n" +
    "youtube:\n" +
    "  scopes: [\"https://www.googleapis.com/auth/youtube.upload\"]\n" +
    "  privacy: \"private\"\n" +
    "  shorts_hashtag: \"#Shorts\"\n" +
    "\n" +
    "autopilot:\n" +
    "  max_urls: 10\n" +
    "  duration: 60\n" +
    "  vertical_transform: true\n" +
    "  upload_enabled: false\n" +
    "  tags: [\"trending\", \"viral\", \"shorts\"]\n"

  const DefaultLayout := Layout(["video_processor.py", "self_heal.py", "packager.py"],
                                "requirements.txt", "config.yaml",
                                ["opencv-python>=4.8.0", "pillow>=10.0.0", "numpy>=1.24.0"],
                                DefaultConfig)

  lemma DefaultLayoutValid()
    ensures ValidLayout(DefaultLayout)
  {
    var l := DefaultLayout;
    assert l.requirementsFile[0] == 'r' && l.configFile[0] == 'c';
    assert l.modules[0][0] == 'v' && l.modules[1][0] == 's' && l.modules[2][0] == 'p';
  }

  // ---------------------------------------------------------------------------
  // The requirements merge
  // ---------------------------------------------------------------------------

  /** `req.split('>=')[0]`: the package name of a requirement. */
  function RequirementName(req: string): (n: string)
    ensures n <= req
    ensures !Contains(req, ">=") ==> n == req
    ensures Contains(req, ">=") ==> OccursAt(req, ">=", |n|) && forall i :: 0 <= i < |n| ==> !OccursAt(req, ">=", i)
  {
    BeforeFirst(req, ">=")
  }

  /**
   * The text `requirements.txt` ends with: each requirement whose name does not occur in the
   * text read before the loop is appended on a line of its own, in list order.
   */
  function Merge(existing: string, reqs: seq<string>): (r: string)
    ensures existing <= r
    decreases |reqs|
  {
    if reqs == [] then existing
    else
      var before := Merge(existing, reqs[..|reqs| - 1]);
      var req := reqs[|reqs| - 1];
      if Contains(existing, RequirementName(req)) then before else before + "\n" + req
  }

  lemma MergeStep(existing: string, reqs: seq<string>, req: string)
    ensures Merge(existing, reqs + [req]) ==
      if Contains(existing, RequirementName(req)) then Merge(existing, reqs) else Merge(existing, reqs) + "\n" + req
  {
    assert (reqs + [req])[..|reqs|] == reqs;
  }

  /** After the merge, the name of every requirement occurs in the text. */
  lemma {:induction false} MergeCovers(existing: string, reqs: seq<string>, k: nat)
    requires k < |reqs|
    ensures Contains(Merge(existing, reqs), RequirementName(reqs[k]))
    decreases |reqs|
  {
    var before := Merge(existing, reqs[..|reqs| - 1]);
    var req := reqs[|reqs| - 1];
    var name := RequirementName(reqs[k]);
    if k == |reqs| - 1 {
      if Contains(existing, name) {
        ContainsPrefixed(before, existing, name);
      } else {
        ContainsPrefix(req, name);
        ContainsAppendRight(before + "\n", req, name);
        assert before + "\n" + req == (before + "\n") + req;
      }
    } else {
      assert reqs[..|reqs| - 1][k] == reqs[k];
      MergeCovers(existing, reqs[..|reqs| - 1], k);
      if !Contains(existing, RequirementName(req)) {
        ContainsAppendLeft(before, "\n" + req, name);
        assert before + "\n" + req == before + ("\n" + req);
      }
    }
  }

  lemma ContainsPrefixed(s: string, prefix: string, sub: string)
    requires prefix <= s && Contains(prefix, sub)
    ensures Contains(s, sub)
  {
    assert s == prefix + s[|prefix|..];
    ContainsAppendLeft(prefix, s[|prefix|..], sub);
  }

  /** Nothing is appended when every name already occurs. */
  lemma {:induction false} MergeNothingNew(existing: string, reqs: seq<string>)
    requires forall k :: 0 <= k < |reqs| ==> Contains(existing, RequirementName(reqs[k]))
    ensures Merge(existing, reqs) == existing
    decreases |reqs|
  {
    if reqs != [] {
      MergeNothingNew(existing, reqs[..|reqs| - 1]);
    }
  }

  /** Merging a second time adds nothing. */
  lemma MergeIdempotent(existing: string, reqs: seq<string>)
    ensures Merge(Merge(existing, reqs), reqs) == Merge(existing, reqs)
  {
    forall k | 0 <= k < |reqs| ensures Contains(Merge(existing, reqs), RequirementName(reqs[k])) {
      MergeCovers(existing, reqs, k);
    }
    MergeNothingNew(Merge(existing, reqs), reqs);
  }

  /** The appended text: "\n" + each requirement whose name is absent, in list order. */
  function Appended(existing: string, reqs: seq<string>): string
    decreases |reqs|
  {
    if reqs == [] then ""
    else
      var req := reqs[0];
      (if Contains(existing, RequirementName(req)) then "" else "\n" + req) + Appended(existing, reqs[1..])
  }

  /** The merge appends exactly the absent requirements' lines, front to back. */
  lemma {:induction false} MergeAppends(existing: string, reqs: seq<string>)
    ensures Merge(existing, reqs) == existing + Appended(existing, reqs)
    decreases |reqs|
  {
    if reqs != [] {
      var init := reqs[..|reqs| - 1];
      var last := reqs[|reqs| - 1];
      assert reqs == init + [last];
      MergeAppends(existing, init);
      MergeStep(existing, init, last);
      AppendedSnoc(existing, init, last);
    }
  }

  lemma {:induction false} AppendedSnoc(existing: string, reqs: seq<string>, req: string)
    ensures Appended(existing, reqs + [req]) ==
      Appended(existing, reqs) + (if Contains(existing, RequirementName(req)) then "" else "\n" + req)
    decreases |reqs|
  {
    if reqs == [] {
      assert (reqs + [req])[1..] == [];
    } else {
      assert (reqs + [req])[0] == reqs[0];
      assert (reqs + [req])[1..] == reqs[1..] + [req];
      AppendedSnoc(existing, reqs[1..], req);
    }
  }

  // ---------------------------------------------------------------------------
  // The whole integration, as a function of the installation's files
  // ---------------------------------------------------------------------------

  /** The files after copying each module of `modules` that exists in `sources`. */
  function CopyAll(files: map<string, string>, sources: map<string, string>, modules: seq<string>): (r: map<string, string>)
    ensures forall n :: n in r <==> n in files || (n in modules && n in sources)
    ensures forall n :: n in r && n !in modules ==> r[n] == files[n]
    ensures forall n :: n in modules && n in sources ==> r[n] == sources[n]
    ensures forall n :: n in modules && n !in sources && n in files ==> r[n] == files[n]
    decreases |modules|
  {
    if modules == [] then files
    else
      var before := CopyAll(files, sources, modules[..|modules| - 1]);
      var m := modules[|modules| - 1];
      assert forall n :: n in modules <==> n in modules[..|modules| - 1] || n == m;
      if m in sources then before[m := sources[m]] else before
  }

  /** The requirements step: the merge if `requirements.txt` exists, and no write otherwise. */
  function WithRequirements(l: Layout, files: map<string, string>): (r: map<string, string>)
    ensures r.Keys == files.Keys
    ensures forall n :: n in files && n != l.requirementsFile ==> r[n] == files[n]
    ensures l.requirementsFile in files ==> r[l.requirementsFile] == Merge(files[l.requirementsFile], l.requirements)
  {
    if l.requirementsFile in files then files[l.requirementsFile := Merge(files[l.requirementsFile], l.requirements)]
    else files
  }

  /** The configuration step: the default is written only when there is no `config.yaml`. */
  function WithConfig(l: Layout, files: map<string, string>): (r: map<string, string>)
    ensures r.Keys == files.Keys + {l.configFile}
    ensures forall n :: n in files ==> r[n] == files[n]
    ensures l.configFile !in files ==> r[l.configFile] == l.defaultConfig
  {
    if l.configFile in files then files else files[l.configFile := l.defaultConfig]
  }

  /** The installation's files after `integrate_new_features`: the copied modules, the merged
      requirements and the configuration, over everything that was there. */
  function Integrated(l: Layout, files: map<string, string>, sources: map<string, string>): (r: map<string, string>)
    ensures forall n :: n in r <==> n in files || (n in l.modules && n in sources) || n == l.configFile
  {
    WithConfig(l, WithRequirements(l, CopyAll(files, sources, l.modules)))
  }

  /** What the integration does to each file. */
  lemma IntegratedSpec(l: Layout, files: map<string, string>, sources: map<string, string>)
    requires ValidLayout(l)
    ensures var r := Integrated(l, files, sources);
      (forall m :: m in l.modules && m in sources ==> m in r && r[m] == sources[m]) &&
      (l.requirementsFile in files <==> l.requirementsFile in r) &&
      (l.requirementsFile in files ==> r[l.requirementsFile] == Merge(files[l.requirementsFile], l.requirements)) &&
      (l.configFile in files ==> l.configFile in r && r[l.configFile] == files[l.configFile]) &&
      (l.configFile !in files ==> l.configFile in r && r[l.configFile] == l.defaultConfig) &&
      (forall n :: n in files && n !in l.modules && n != l.requirementsFile && n != l.configFile ==>
         n in r && r[n] == files[n]) &&
      (forall n :: n in r ==> n in files || n in l.modules || n == l.configFile)
  {
  }

  /** Integrating twice leaves the files as one integration left them. */
  lemma IntegratedTwice(l: Layout, files: map<string, string>, sources: map<string, string>)
    requires ValidLayout(l)
    ensures Integrated(l, Integrated(l, files, sources), sources) == Integrated(l, files, sources)
  {
    var once := Integrated(l, files, sources);
    var twice := Integrated(l, once, sources);
    IntegratedSpec(l, files, sources);
    IntegratedSpec(l, once, sources);
    if l.requirementsFile in files {
      MergeIdempotent(files[l.requirementsFile], l.requirements);
    }
    assert forall n :: n in twice <==> n in once;
    forall n | n in once ensures twice[n] == once[n] {
      if n in l.modules && n !in sources {
        assert once[n] == files[n];
        CopyAllKeeps(once, sources, l.modules, n);
        CopyAllKeeps(files, sources, l.modules, n);
      }
    }
  }

  lemma CopyAllKeeps(files: map<string, string>, sources: map<string, string>, modules: seq<string>, n: string)
    requires n in files && n !in sources
    ensures n in CopyAll(files, sources, modules) && CopyAll(files, sources, modules)[n] == files[n]
  {
  }

  class Installation {
    /** Whether the installation directory exists. */
    const baseExists: bool
    const layout: Layout
    /** The installation directory: file name to file text. */
    var files: map<string, string>

    constructor(baseExists: bool, files: map<string, string>)
      ensures this.baseExists == baseExists && layout == DefaultLayout && this.files == files
    {
      this.baseExists := baseExists;
      layout := DefaultLayout;
      this.files := files;
    }

    /**
     * `integrate_new_features`; `sources` are the module files next to the script. A missing
     * installation directory stops everything before any copy.
     */
    method IntegrateNewFeatures(sources: map<string, string>) returns (ok: bool)
      modifies this
      ensures ok == baseExists
      ensures !ok ==> files == old(files)
      ensures ok ==> files == Integrated(layout, old(files), sources)
    {
      if !baseExists {
        return false;
      }
      CopyModules(sources);
      AppendRequirements();
      if layout.configFile !in files {
        files := files[layout.configFile := layout.defaultConfig];
      }
      ok := true;
    }

    /** The copy loop: each new module that exists beside the script is copied in. */
    method CopyModules(sources: map<string, string>)
      modifies this
      ensures files == CopyAll(old(files), sources, layout.modules)
    {
      var i := 0;
      while i < |layout.modules|
        invariant 0 <= i <= |layout.modules|
        invariant files == CopyAll(old(files), sources, layout.modules[..i])
      {
        var name := layout.modules[i];
        assert layout.modules[..i + 1][..i] == layout.modules[..i];
        if name in sources {
          files := files[name := sources[name]];
        }
        i := i + 1;
      }
      assert layout.modules[..i] == layout.modules;
    }

    /**
     * The requirements loop: each requirement is checked against the text read before the loop
     * and appended on a line of its own; a missing `requirements.txt` is left missing.
     */
    method AppendRequirements()
      modifies this
      ensures files == WithRequirements(layout, old(files))
    {
      var name, reqs := layout.requirementsFile, layout.requirements;
      if name in files {
        var existing := files[name];
        var j := 0;
        while j < |reqs|
          invariant 0 <= j <= |reqs|
          invariant files == old(files)[name := Merge(existing, reqs[..j])]
        {
          var req := reqs[j];
          assert reqs[..j + 1] == reqs[..j] + [req];
          MergeStep(existing, reqs[..j], req);
          if !Contains(existing, RequirementName(req)) {
            files := files[name := files[name] + "\n" + req];
          }
          j := j + 1;
        }
        assert reqs[..j] == reqs;
      }
    }
  }
}
