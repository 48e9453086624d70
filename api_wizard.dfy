// The API set-up wizard: finding API keys in the environment, recording keys typed by the
// user, the `.env` file it writes, the `config.yaml` merge, and the wizard's overall verdict.
// The environment, the console and the file system are inputs; the OAuth step is its result.

module ApiWizard {
  import opened Wrappers
  import opened Text

  /** One `key: value` item of an insertion-ordered dictionary. */
  datatype Entry = Entry(key: string, value: string)

  const YouTubeKey := "YOUTUBE_API_KEY"
  const OpenAIKey := "OPENAI_API_KEY"
  const TavilyKey := "TAVILY_API_KEY"
  /** The keys the wizard knows, in the order it asks for them. */
  const KeyNames: seq<string> := [YouTubeKey, OpenAIKey, TavilyKey]

  /** A value of the configuration dictionary. */
  datatype ConfigValue = Str(s: string) | Int(i: int) | Num(r: real)

  const DefaultRegion := "GB"
  const DefaultDurationText := "60"
  const DefaultDuration := 60
  const DefaultCpm: real := 3.5

  predicate DistinctKeys(entries: seq<Entry>)
  {
    forall i, j :: 0 <= i < j < |entries| ==> entries[i].key != entries[j].key
  }

  predicate Distinct(names: seq<string>)
  {
    forall i, j :: 0 <= i < j < |names| ==> names[i] != names[j]
  }

  /**
   * The dictionary that a run of "if value: d[name] = value" over `names` builds, paired
   * with their `values`.
   */
  function Collect(names: seq<string>, values: seq<string>): (r: seq<Entry>)
    requires |names| == |values|
    ensures |r| <= |names|
    ensures forall e :: e in r ==> e.value != ""
    decreases |names|
  {
    if names == [] then []
    else (if values[0] != "" then [Entry(names[0], values[0])] else []) + Collect(names[1..], values[1..])
  }

  /** Exactly the non-empty values are recorded, each under its own name, and distinct names
      give distinct keys. */
  lemma CollectSpec(names: seq<string>, values: seq<string>)
    requires |names| == |values|
    ensures var r := Collect(names, values);
      && (forall i :: 0 <= i < |names| && values[i] != "" ==> Entry(names[i], values[i]) in r)
      && (forall e :: e in r ==> e.value != "" && exists i :: 0 <= i < |names| && e == Entry(names[i], values[i]))
      && (r == [] <==> forall i :: 0 <= i < |names| ==> values[i] == "")
      && (Distinct(names) ==> DistinctKeys(r))
  {
    CollectHas(names, values);
    CollectFrom(names, values);
    CollectEmpty(names, values);
    if Distinct(names) {
      CollectDistinct(names, values);
    }
  }

  lemma {:induction false} CollectHas(names: seq<string>, values: seq<string>)
    requires |names| == |values|
    ensures forall i :: 0 <= i < |names| && values[i] != "" ==> Entry(names[i], values[i]) in Collect(names, values)
    decreases |names|
  {
    if names != [] {
      CollectHas(names[1..], values[1..]);
      forall i | 1 <= i < |names| ensures names[1..][i - 1] == names[i] && values[1..][i - 1] == values[i] {
      }
    }
  }

  lemma {:induction false} CollectEmpty(names: seq<string>, values: seq<string>)
    requires |names| == |values|
    ensures Collect(names, values) == [] <==> forall i :: 0 <= i < |names| ==> values[i] == ""
    decreases |names|
  {
    if names != [] {
      CollectEmpty(names[1..], values[1..]);
      assert forall i :: 1 <= i < |names| ==> values[1..][i - 1] == values[i];
    }
  }

  lemma {:induction false} CollectFrom(names: seq<string>, values: seq<string>)
    requires |names| == |values|
    ensures forall e :: e in Collect(names, values) ==>
      e.value != "" && exists i :: 0 <= i < |names| && e == Entry(names[i], values[i])
    decreases |names|
  {
    if names != [] {
      CollectFrom(names[1..], values[1..]);
      var rest := Collect(names[1..], values[1..]);
      forall e | e in rest ensures exists i :: 0 <= i < |names| && e == Entry(names[i], values[i]) {
        var j :| 0 <= j < |names| - 1 && e == Entry(names[1..][j], values[1..][j]);
        assert e == Entry(names[j + 1], values[j + 1]);
      }
    }
  }

  lemma {:induction false} CollectDistinct(names: seq<string>, values: seq<string>)
    requires |names| == |values| && Distinct(names)
    ensures DistinctKeys(Collect(names, values))
    decreases |names|
  {
    if names != [] {
      var rest := Collect(names[1..], values[1..]);
      assert Distinct(names[1..]);
      CollectDistinct(names[1..], values[1..]);
      CollectFrom(names[1..], values[1..]);
      forall e | e in rest ensures e.key != names[0] {
        var j :| 0 <= j < |names| - 1 && e == Entry(names[1..][j], values[1..][j]);
        assert e.key == names[j + 1];
      }
    }
  }

  /** `os.environ.get(name)` where a missing variable reads like an empty one. */
  function Lookup(env: map<string, string>, name: string): string
  {
    if name in env then env[name] else ""
  }

  /** The value of each variable in `names`. */
  function Lookups(env: map<string, string>, names: seq<string>): (v: seq<string>)
    ensures |v| == |names|
    ensures forall i :: 0 <= i < |names| ==> v[i] == Lookup(env, names[i])
  {
    if names == [] then [] else [Lookup(env, names[0])] + Lookups(env, names[1..])
  }

  function EnvValues(env: map<string, string>): (v: seq<string>)
    ensures |v| == |KeyNames|
  {
    Lookups(env, KeyNames)
  }

  /** The answers to the three key prompts, stripped. */
  function AnswerValues(youtube: string, openai: string, tavily: string): (v: seq<string>)
    ensures |v| == |KeyNames|
  {
    [Strip(youtube), Strip(openai), Strip(tavily)]
  }

  lemma KeyNamesDistinct()
    ensures Distinct(KeyNames)
  {
    assert KeyNames[0][0] == 'Y' && KeyNames[1][0] == 'O' && KeyNames[2][0] == 'T';
  }

  /** A key comes from the environment exactly when its variable is set and non-empty. */
  lemma EnvironmentKeys(env: map<string, string>, names: seq<string>)
    requires Distinct(names)
    ensures forall k :: k in names && k in env && env[k] != "" ==> Entry(k, env[k]) in Collect(names, Lookups(env, names))
    ensures forall e :: e in Collect(names, Lookups(env, names)) ==>
      e.key in names && e.key in env && e.value == env[e.key] && e.value != ""
    ensures DistinctKeys(Collect(names, Lookups(env, names)))
  {
    var v := Lookups(env, names);
    var r := Collect(names, v);
    CollectSpec(names, v);
    forall k | k in names && k in env && env[k] != "" ensures Entry(k, env[k]) in r {
      var i :| 0 <= i < |names| && names[i] == k;
      assert v[i] == env[k];
    }
  }

  /** A typed key is recorded exactly when its stripped answer is non-empty, and stored stripped. */
  lemma AnswerKeys(names: seq<string>, answers: seq<string>, values: seq<string>)
    requires |names| == |answers| == |values| && Distinct(names)
    requires forall i :: 0 <= i < |answers| ==> values[i] == Strip(answers[i])
    ensures forall i :: 0 <= i < |names| ==>
      (Strip(answers[i]) != "" <==> Entry(names[i], Strip(answers[i])) in Collect(names, values))
    ensures forall e :: e in Collect(names, values) ==> e.value == Strip(e.value) && e.value != ""
    ensures DistinctKeys(Collect(names, values))
  {
    var r := Collect(names, values);
    CollectSpec(names, values);
    forall e | e in r ensures e.value == Strip(e.value) {
      var i :| 0 <= i < |names| && e == Entry(names[i], values[i]);
      StripIdempotent(answers[i]);
    }
    forall i | 0 <= i < |names| && Entry(names[i], Strip(answers[i])) in r ensures Strip(answers[i]) != "" {
      assert Entry(names[i], Strip(answers[i])).value != "";
    }
  }

  /** `Collect` over three names, spelled out as three conditional inserts. */
  lemma CollectThree(names: seq<string>, values: seq<string>)
    requires |names| == 3 && |values| == 3
    ensures Collect(names, values) ==
      (if values[0] != "" then [Entry(names[0], values[0])] else []) +
      (if values[1] != "" then [Entry(names[1], values[1])] else []) +
      (if values[2] != "" then [Entry(names[2], values[2])] else [])
  {
    var n1, v1 := names[1..], values[1..];
    var n2, v2 := n1[1..], v1[1..];
    assert n1[0] == names[1] && v1[0] == values[1] && n2[0] == names[2] && v2[0] == values[2];
    assert n2[1..] == [] && v2[1..] == [];
    var c0 := if values[0] != "" then [Entry(names[0], values[0])] else [];
    var c1 := if values[1] != "" then [Entry(names[1], values[1])] else [];
    var c2 := if values[2] != "" then [Entry(names[2], values[2])] else [];
    CollectStep(n2, v2);
    assert Collect(n2, v2) == c2;
    CollectStep(n1, v1);
    assert Collect(n1, v1) == c1 + c2;
    CollectStep(names, values);
    assert Collect(names, values) == c0 + (c1 + c2);
    ConcatAssoc(c0, c1, c2);
  }

  lemma CollectStep(names: seq<string>, values: seq<string>)
    requires |names| == |values| && |names| > 0
    ensures Collect(names, values) ==
      (if values[0] != "" then [Entry(names[0], values[0])] else []) + Collect(names[1..], values[1..])
  {
  }

  /** `KEY=VALUE` for each item. */
  function EnvLines(entries: seq<Entry>): (lines: seq<string>)
    ensures |lines| == |entries|
    ensures forall i :: 0 <= i < |entries| ==> lines[i] == entries[i].key + "=" + entries[i].value
  {
    if entries == [] then [] else [entries[0].key + "=" + entries[0].value] + EnvLines(entries[1..])
  }

  /** Reads a `.env` line back: the key is the text before the first '='. */
  function ParseEnvLine(line: string): (e: Entry)
  {
    var key := BeforeFirst(line, "=");
    if |key| < |line| then Entry(key, line[|key| + 1..]) else Entry(line, "")
  }

  function ParseEnvLines(lines: seq<string>): (r: seq<Entry>)
    ensures |r| == |lines|
    ensures forall i :: 0 <= i < |lines| ==> r[i] == ParseEnvLine(lines[i])
  {
    if lines == [] then [] else [ParseEnvLine(lines[0])] + ParseEnvLines(lines[1..])
  }

  /** Reads a `.env` file back, one item per line. */
  function ParseEnvFile(content: string): seq<Entry>
  {
    ParseEnvLines(Split(content, '\n'))
  }

  lemma BeforeFirstEquals(key: string, value: string)
    requires '=' !in key
    ensures BeforeFirst(key + "=" + value, "=") == key
  {
    var line := key + "=" + value;
    var b := BeforeFirst(line, "=");
    assert Contains(line, "=") by {
      assert OccursAt(line, "=", |key|);
      OccursAtContains(line, "=", |key|);
    }
    BeforeFirstSpec(line, key);
  }

  /** The text before the first '=' of `key + "=" + ...`, where `key` has no '='. */
  lemma BeforeFirstSpec(line: string, key: string)
    requires '=' !in key && |key| < |line| && line[|key|] == '=' && key <= line
    ensures BeforeFirst(line, "=") == key
    decreases |key|
  {
    if |key| > 0 {
      assert line[0] != '=' by { assert line[0] == key[0]; }
      assert !OccursAt(line, "=", 0);
      BeforeFirstSpec(line[1..], key[1..]);
    } else {
      assert OccursAt(line, "=", 0);
    }
  }

  lemma ParseEnvLineRoundTrip(e: Entry)
    requires '=' !in e.key
    ensures ParseEnvLine(e.key + "=" + e.value) == e
  {
    var line := e.key + "=" + e.value;
    BeforeFirstEquals(e.key, e.value);
    assert line[|e.key| + 1..] == e.value;
  }

  /** Items whose text has no line break and whose keys have no '=' read back from the file unchanged. */
  lemma EnvFileRoundTrip(entries: seq<Entry>)
    requires |entries| >= 1
    requires forall i :: 0 <= i < |entries| ==> '\n' !in entries[i].key && '\n' !in entries[i].value && '=' !in entries[i].key
    ensures ParseEnvFile(Join(EnvLines(entries), "\n")) == entries
  {
    var lines := EnvLines(entries);
    forall i | 0 <= i < |lines| ensures '\n' !in lines[i] {
      assert lines[i] == entries[i].key + "=" + entries[i].value;
    }
    SplitJoin(lines, '\n');
    assert Split(Join(lines, "\n"), '\n') == lines;
    ParseEnvLinesRoundTrip(entries);
  }

  lemma ParseEnvLinesRoundTrip(entries: seq<Entry>)
    requires forall i :: 0 <= i < |entries| ==> '=' !in entries[i].key
    ensures ParseEnvLines(EnvLines(entries)) == entries
  {
    var r := ParseEnvLines(EnvLines(entries));
    forall i | 0 <= i < |entries| ensures r[i] == entries[i] {
      ParseEnvLineRoundTrip(entries[i]);
    }
  }

  /** The file ends with the last value: there is no trailing line break. */
  lemma EnvFileEnds(entries: seq<Entry>)
    requires |entries| >= 1 && entries[|entries| - 1].value != ""
    ensures var content := Join(EnvLines(entries), "\n");
      |content| > 0 && content[|content| - 1] == entries[|entries| - 1].value[|entries[|entries| - 1].value| - 1]
  {
    var lines := EnvLines(entries);
    JoinEndsWith(lines, "\n");
  }

  lemma {:induction false} JoinEndsWith(parts: seq<string>, sep: string)
    requires |parts| >= 1
    ensures Join(parts, sep) == Join(parts[..|parts| - 1], sep) + (if |parts| == 1 then "" else sep) + parts[|parts| - 1]
    decreases |parts|
  {
    if |parts| > 1 {
      JoinEndsWith(parts[1..], sep);
      assert parts[1..][..|parts| - 2] == parts[1..|parts| - 1];
      if |parts| > 2 {
        assert parts[..|parts| - 1][1..] == parts[1..|parts| - 1];
      } else {
        assert parts[..|parts| - 1] == [parts[0]];
      }
    }
  }

  /** `config.update(settings)` on the loaded configuration, `{}` when there is none. */
  function Merge(loaded: Option<map<string, ConfigValue>>, settings: map<string, ConfigValue>): (r: map<string, ConfigValue>)
    ensures r.Keys == (if loaded.Some? then loaded.value.Keys else {}) + settings.Keys
    ensures forall k :: k in settings ==> r[k] == settings[k]
    ensures loaded.Some? ==> forall k :: k in loaded.value && k !in settings ==> r[k] == loaded.value[k]
  {
    (if loaded.Some? then loaded.value else map[]) + settings
  }

  /** `input(...).strip() or "GB"`. */
  function Region(answer: string): (r: string)
    ensures r != ""
    ensures Strip(answer) != "" ==> r == Strip(answer)
    ensures Strip(answer) == "" ==> r == DefaultRegion
  {
    if Strip(answer) == "" then DefaultRegion else Strip(answer)
  }

  /** `int(text)`, and 60 when that raises `ValueError`. */
  function DurationOf(text: string): int
  {
    match ParseInt(text)
    case Some(n) => n
    case None => DefaultDuration
  }

  /** `int(input(...).strip() or "60")`, and 60 when that raises `ValueError`. */
  function Duration(answer: string): (d: int)
    ensures Strip(answer) == "" ==> d == DefaultDuration
    ensures Strip(answer) != "" && ParseInt(Strip(answer)).None? ==> d == DefaultDuration
    ensures Strip(answer) != "" && ParseInt(Strip(answer)).Some? ==> d == ParseInt(Strip(answer)).value
  {
    if Strip(answer) == "" then
      DefaultDurationParses();
      DurationOf(DefaultDurationText)
    else DurationOf(Strip(answer))
  }

  lemma DefaultDurationParses()
    ensures ParseInt(DefaultDurationText) == Some(DefaultDuration)
  {
    assert IntToString(60) == DefaultDurationText;
    ParseIntToString(60);
  }

  /** Typing a number, with or without surrounding blanks, sets that duration. */
  lemma DurationOfNumber(n: int, before: string, after: string)
    requires forall k :: 0 <= k < |before| ==> IsSpace(before[k])
    requires forall k :: 0 <= k < |after| ==> IsSpace(after[k])
    ensures Duration(before + IntToString(n) + after) == n
  {
    var s := IntToString(n);
    NoSpaceIntToString(n);
    StripAround(before, s, after);
    ParseIntToString(n);
  }

  /** The settings the wizard writes. */
  function WizardSettings(regionAnswer: string, cpm: Option<real>, durationAnswer: string): (m: map<string, ConfigValue>)
    ensures m.Keys == {"region", "cpm_gbp", "clip_duration"}
    ensures m["region"] == Str(Region(regionAnswer))
    ensures m["cpm_gbp"] == Num(if cpm.Some? then cpm.value else DefaultCpm)
    ensures m["clip_duration"] == Int(Duration(durationAnswer))
  {
    map["region" := Str(Region(regionAnswer)),
        "cpm_gbp" := Num(if cpm.Some? then cpm.value else DefaultCpm),
        "clip_duration" := Int(Duration(durationAnswer))]
  }

  /** Whether the wizard reports success. */
  function WizardVerdict(oauth: bool, apiKeys: seq<Entry>, envKeys: seq<Entry>): bool
  {
    oauth || apiKeys != [] || envKeys != []
  }

  /** The wizard succeeds iff OAuth worked, some typed key is non-blank, or some key variable is set. */
  lemma WizardVerdictSpec(oauth: bool, env: map<string, string>, names: seq<string>, answers: seq<string>, values: seq<string>)
    requires |names| == |answers| == |values|
    requires forall i :: 0 <= i < |answers| ==> values[i] == Strip(answers[i])
    ensures WizardVerdict(oauth, Collect(names, values), Collect(names, Lookups(env, names)))
      <==> oauth || (exists i :: 0 <= i < |answers| && Strip(answers[i]) != "") ||
           (exists i :: 0 <= i < |names| && names[i] in env && env[names[i]] != "")
  {
    AnswersGiven(names, answers, values);
    VariablesSet(env, names);
  }

  lemma AnswersGiven(names: seq<string>, answers: seq<string>, values: seq<string>)
    requires |names| == |answers| == |values|
    requires forall i :: 0 <= i < |answers| ==> values[i] == Strip(answers[i])
    ensures Collect(names, values) != [] <==> exists i :: 0 <= i < |answers| && Strip(answers[i]) != ""
  {
    CollectEmpty(names, values);
  }

  lemma VariablesSet(env: map<string, string>, names: seq<string>)
    ensures Collect(names, Lookups(env, names)) != [] <==> exists i :: 0 <= i < |names| && names[i] in env && env[names[i]] != ""
  {
    var v := Lookups(env, names);
    CollectEmpty(names, v);
    assert forall i :: 0 <= i < |names| ==> (v[i] != "" <==> names[i] in env && env[names[i]] != "");
  }

  class APIWizard {
    /** The contents of `.env`, if the wizard has written it. */
    var envFile: Option<string>
    /** The contents of `config.yaml`, or `None` if it does not exist. */
    var configFile: Option<map<string, ConfigValue>>

    constructor(envFile: Option<string>, configFile: Option<map<string, ConfigValue>>)
      ensures this.envFile == envFile && this.configFile == configFile
    {
      this.envFile := envFile;
      this.configFile := configFile;
    }

    /** `check_environment_variables`. */
    method CheckEnvironmentVariables(env: map<string, string>) returns (keys: seq<Entry>)
      ensures keys == Collect(KeyNames, EnvValues(env))
    {
      var values := EnvValues(env);
      keys := [];
      if values[0] != "" {
        keys := keys + [Entry(KeyNames[0], values[0])];
      }
      if values[1] != "" {
        keys := keys + [Entry(KeyNames[1], values[1])];
      }
      if values[2] != "" {
        keys := keys + [Entry(KeyNames[2], values[2])];
      }
      CollectThree(KeyNames, values);
    }

    /** `setup_api_keys`, given what the user types at the three prompts. */
    method SetupApiKeys(youtubeAnswer: string, openaiAnswer: string, tavilyAnswer: string) returns (keys: seq<Entry>)
      ensures keys == Collect(KeyNames, AnswerValues(youtubeAnswer, openaiAnswer, tavilyAnswer))
    {
      var values := AnswerValues(youtubeAnswer, openaiAnswer, tavilyAnswer);
      keys := [];
      if values[0] != "" {
        keys := keys + [Entry(KeyNames[0], values[0])];
      }
      if values[1] != "" {
        keys := keys + [Entry(KeyNames[1], values[1])];
      }
      if values[2] != "" {
        keys := keys + [Entry(KeyNames[2], values[2])];
      }
      CollectThree(KeyNames, values);
    }

    /** The text `save_api_keys_to_env_file` writes. */
    method EnvContent(keys: seq<Entry>) returns (content: string)
      ensures content == Join(EnvLines(keys), "\n")
    {
      var lines: seq<string> := [];
      var i := 0;
      while i < |keys|
        invariant 0 <= i <= |keys|
        invariant lines == EnvLines(keys[..i])
      {
        assert keys[..i + 1] == keys[..i] + [keys[i]];
        EnvLinesAppend(keys[..i], keys[i]);
        lines := lines + [keys[i].key + "=" + keys[i].value];
        i := i + 1;
      }
      assert keys[..i] == keys;
      content := Join(lines, "\n");
    }

    /** `save_api_keys_to_env_file`; `writeOk` is whether writing the file succeeds. */
    method SaveApiKeysToEnvFile(keys: seq<Entry>, writeOk: bool) returns (ok: bool)
      modifies this
      ensures ok == writeOk
      ensures envFile == (if ok then Some(Join(EnvLines(keys), "\n")) else old(envFile))
      ensures configFile == old(configFile)
    {
      if !writeOk {
        return false;
      }
      var content := EnvContent(keys);
      envFile := Some(content);
      ok := true;
    }

    /** `update_config`; `writeOk` is whether loading and saving the file succeed. */
    method UpdateConfig(settings: map<string, ConfigValue>, writeOk: bool) returns (ok: bool)
      modifies this
      ensures ok == writeOk
      ensures configFile == (if ok then Some(Merge(old(configFile), settings)) else old(configFile))
      ensures envFile == old(envFile)
    {
      if !writeOk {
        return false;
      }
      var config: map<string, ConfigValue> := map[];
      if configFile.Some? {
        config := configFile.value;
      }
      config := config + settings;
      configFile := Some(config);
      ok := true;
    }

    /**
     * `run_wizard`. `oauth` is the result of the YouTube OAuth step, the answers are what the
     * user types, `cpm` is the parsed CPM (`None` when the parse raises), and the two flags say
     * whether writing `.env` and `config.yaml` succeeds.
     */
    method RunWizard(env: map<string, string>, oauth: bool,
                     youtubeAnswer: string, openaiAnswer: string, tavilyAnswer: string,
                     regionAnswer: string, cpm: Option<real>, durationAnswer: string,
                     envWriteOk: bool, configWriteOk: bool) returns (success: bool)
      modifies this
      ensures success == WizardVerdict(oauth, Collect(KeyNames, AnswerValues(youtubeAnswer, openaiAnswer, tavilyAnswer)),
                                       Collect(KeyNames, EnvValues(env)))
      ensures var apiKeys := Collect(KeyNames, AnswerValues(youtubeAnswer, openaiAnswer, tavilyAnswer));
        envFile == (if apiKeys != [] && envWriteOk then Some(Join(EnvLines(apiKeys), "\n")) else old(envFile))
      ensures configFile == (if configWriteOk then Some(Merge(old(configFile), WizardSettings(regionAnswer, cpm, durationAnswer)))
                             else old(configFile))
    {
      var envKeys := CheckEnvironmentVariables(env);
      var apiKeys := SetupApiKeys(youtubeAnswer, openaiAnswer, tavilyAnswer);
      if apiKeys != [] {
        var saved := SaveApiKeysToEnvFile(apiKeys, envWriteOk);
      }
      var settings := WizardSettings(regionAnswer, cpm, durationAnswer);
      var updated := UpdateConfig(settings, configWriteOk);
      success := oauth || apiKeys != [] || envKeys != [];
    }
  }

  lemma EnvLinesAppend(entries: seq<Entry>, e: Entry)
    ensures EnvLines(entries + [e]) == EnvLines(entries) + [e.key + "=" + e.value]
  {
    var l := EnvLines(entries + [e]);
    assert forall i :: 0 <= i < |entries| ==> (entries + [e])[i] == entries[i];
  }
}
