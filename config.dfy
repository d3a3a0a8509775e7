/**
 * Configuration: the supported script interpreters, the defaults, the
 * `config.yaml` merge with its cache, the brightness clamp, the
 * `env.local` KEY=VALUE parser and the shared configuration instance.
 */
module Config {

  import opened Wrappers
  import opened Text
  import opened Paths

  /** Script extensions with their interpreter, in the order lookups try them. */
  const SupportedScripts: seq<(string, string)> := [("sh", "bash"), ("py", "python3"), ("js", "node")]

  /** The script extensions in lookup order. */
  function ScriptExtensions(): (exts: seq<string>)
    ensures |exts| == |SupportedScripts|
    ensures forall k | 0 <= k < |exts| :: exts[k] == SupportedScripts[k].0 && '.' !in exts[k]
  {
    ["sh", "py", "js"]
  }

  /** `SUPPORTED_SCRIPTS.get(ext)`: the interpreter for an extension, if supported. */
  function Interpreter(ext: string): (cmd: Option<string>)
    ensures cmd.Some? <==> ext in ScriptExtensions()
    ensures forall k | 0 <= k < |SupportedScripts| && SupportedScripts[k].0 == ext :: cmd == Some(SupportedScripts[k].1)
  {
    if ext == "sh" then Some("bash")
    else if ext == "py" then Some("python3")
    else if ext == "js" then Some("node")
    else None
  }

  const DefaultBrightness: int := 50

  /** A configuration value as YAML yields it; fractions are held in thousandths. */
  datatype Value = IntValue(i: int) | FractionValue(thousandths: int) | TextValue(s: string) | OtherValue

  /** The default debounce interval, 0.1 seconds. */
  const DefaultDebounceInterval: Value := FractionValue(100)

  /** The settings a configuration file may override, with their defaults. */
  const DefaultConfig: map<string, Value> := map["brightness" := IntValue(DefaultBrightness), "debounce_interval" := DefaultDebounceInterval]

  /** Python's `int()` on an already stripped string: an optional sign, then decimal digits. */
  function ParseInt(s: string): (r: Option<int>)
    ensures r.Some? ==> s != []
  {
    if s != [] && (s[0] == '-' || s[0] == '+') then
      match ParseNat(s[1..])
      case Some(n) =>
        var k: int := n;
        var m: int := if s[0] == '-' then -k else k;
        Some(m)
      case None => None
    else
      match ParseNat(s)
      case Some(n) => Some(n)
      case None => None
  }

  /** Python's `int()` on a value; `None` stands for the exception it raises. Fractions truncate toward zero. */
  function ToInt(v: Value): (r: Option<int>)
    ensures v.IntValue? ==> r == Some(v.i)
    ensures v.FractionValue? && v.thousandths >= 0 ==> r == Some(v.thousandths / 1000)
    ensures v.FractionValue? && v.thousandths < 0 ==> r == Some(-((-v.thousandths) / 1000))
    ensures v.TextValue? ==> r == ParseInt(Strip(v.s))
    ensures v.OtherValue? ==> r == None
  {
    match v
    case IntValue(i) => Some(i)
    case FractionValue(t) => Some(if t >= 0 then t / 1000 else -((-t) / 1000))
    case TextValue(s) => ParseInt(Strip(s))
    case OtherValue => None
  }

  /** `max(0, min(100, n))`. */
  function Clamp(n: int): (r: int)
    ensures 0 <= r <= 100
    ensures 0 <= n <= 100 ==> r == n
    ensures n < 0 ==> r == 0
    ensures n > 100 ==> r == 100
  {
    if n < 0 then 0 else if n > 100 then 100 else n
  }

  /** `get_brightness` on a loaded configuration; `None` when `int()` raises. */
  function BrightnessSetting(config: map<string, Value>): (r: Option<int>)
    ensures r.Some? ==> 0 <= r.value <= 100
    ensures "brightness" !in config ==> r == Some(DefaultBrightness)
    ensures "brightness" in config ==> (r.Some? <==> ToInt(config["brightness"]).Some?)
    ensures "brightness" in config && ToInt(config["brightness"]).Some? ==> r == Some(Clamp(ToInt(config["brightness"]).value))
  {
    var v := if "brightness" in config then config["brightness"] else IntValue(DefaultBrightness);
    match ToInt(v)
    case Some(n) => Some(Clamp(n))
    case None => None
  }

  /** What reading `config.yaml` gave: no file, an error while reading or parsing, or its mapping's items in order. */
  datatype UserConfig = NoFile | Unreadable | Items(items: seq<(string, Value)>)

  /** The defaults with every user item whose key is a default key written over them in order. */
  function Merged(items: seq<(string, Value)>): (config: map<string, Value>)
    ensures config.Keys == DefaultConfig.Keys
  {
    if items == [] then DefaultConfig
    else
      var config := Merged(items[..|items| - 1]);
      var (key, value) := items[|items| - 1];
      if key in DefaultConfig then config[key := value] else config
  }

  /** The configuration `load_config` builds from a fresh read. */
  function ConfigFrom(user: UserConfig): (config: map<string, Value>)
    ensures config.Keys == DefaultConfig.Keys
    ensures !user.Items? ==> config == DefaultConfig
  {
    match user
    case Items(items) => Merged(items)
    case _ => DefaultConfig
  }

  /** A default key keeps its default unless an item sets it, and then holds the last such item's value. */
  lemma {:induction false} MergedLastWins(items: seq<(string, Value)>, key: string)
    requires key in DefaultConfig
    ensures (forall j | 0 <= j < |items| :: items[j].0 != key) ==> Merged(items)[key] == DefaultConfig[key]
    ensures forall i | 0 <= i < |items| && items[i].0 == key && (forall j | i < j < |items| :: items[j].0 != key) ::
              Merged(items)[key] == items[i].1
    decreases |items|
  {
    if items != [] {
      var init := items[..|items| - 1];
      var last := items[|items| - 1];
      MergedLastWins(init, key);
      if last.0 == key {
        assert Merged(items)[key] == last.1;
      } else {
        assert Merged(items)[key] == Merged(init)[key];
        assert forall j | 0 <= j < |init| :: init[j] == items[j];
      }
    }
  }

  /** A user item whose key is not a default key changes nothing. */
  lemma {:induction false} MergedIgnoresUnknown(items: seq<(string, Value)>, key: string, value: Value)
    requires key !in DefaultConfig
    ensures Merged(items + [(key, value)]) == Merged(items)
  {
    assert (items + [(key, value)])[..|items|] == items;
  }

  /** `value[1:-1]` when the value is wrapped in double or in single quotes. */
  function Unquote(value: string): (r: string)
    ensures |value| >= 2 && value[0] == value[|value| - 1] && (value[0] == '"' || value[0] == '\'') ==> r == value[1..|value| - 1]
    ensures value == "\"" || value == "'" ==> r == ""
    ensures (value == [] || (value[0] != '"' && value[0] != '\'') || value[0] != value[|value| - 1]) ==> r == value
  {
    if (StartsWith(value, "\"") && EndsWith(value, "\"")) || (StartsWith(value, "'") && EndsWith(value, "'")) then
      if |value| < 2 then "" else value[1..|value| - 1]
    else value
  }

  /** One `env.local` line: the key and value it defines, or `None` when the line is skipped. */
  function ParseEnvLine(line: string): (r: Option<(string, string)>)
    ensures r.Some? ==> r.value.0 != [] && '=' in Strip(line) && !StartsWith(Strip(line), "#")
    ensures Strip(line) == [] || StartsWith(Strip(line), "#") || '=' !in Strip(line) ==> r == None
    ensures '=' in Strip(line) && Strip(Strip(line)[..IndexOf(Strip(line), '=')]) == [] ==> r == None
    ensures r.Some? ==> r.value.0 == Strip(Strip(line)[..IndexOf(Strip(line), '=')]) &&
                        r.value.1 == Unquote(Strip(Strip(line)[IndexOf(Strip(line), '=') + 1..]))
    ensures (Strip(line) != [] && !StartsWith(Strip(line), "#") && '=' in Strip(line) &&
             Strip(Strip(line)[..IndexOf(Strip(line), '=')]) != []) ==> r.Some?
  {
    var l := Strip(line);
    if l == [] || StartsWith(l, "#") || '=' !in l then None
    else
      var i := IndexOf(l, '=');
      var key := Strip(l[..i]);
      var value := Strip(l[i + 1..]);
      if key == [] then None else Some((key, Unquote(value)))
  }

  /** A line with nothing before its first `=`, such as `=invalid_equals_format`, defines nothing. */
  lemma EmptyKeySkipped()
    ensures ParseEnvLine("=invalid_equals_format") == None
  {
    StripUnchanged("=invalid_equals_format");
  }

  /** What each line defines, in order. */
  function Definitions(lines: seq<string>): (defs: seq<Option<(string, string)>>)
    ensures |defs| == |lines| && forall i | 0 <= i < |lines| :: defs[i] == ParseEnvLine(lines[i])
  {
    seq(|lines|, i requires 0 <= i < |lines| => ParseEnvLine(lines[i]))
  }

  /** The map a sequence of definitions builds, each writing over the ones before. */
  function Assign(defs: seq<Option<(string, string)>>): map<string, string>
  {
    if defs == [] then map[]
    else
      var env := Assign(defs[..|defs| - 1]);
      match defs[|defs| - 1]
      case Some((key, value)) => env[key := value]
      case None => env
  }

  /** The variables a sequence of `env.local` lines defines. */
  function EnvVarsOf(lines: seq<string>): map<string, string>
  {
    Assign(Definitions(lines))
  }

  /** One more line writes its definition, if any, over the variables before it. */
  lemma EnvVarsStep(lines: seq<string>, i: nat)
    requires i < |lines|
    ensures var env := EnvVarsOf(lines[..i]);
            EnvVarsOf(lines[..i + 1]) == match ParseEnvLine(lines[i]) case Some((key, value)) => env[key := value] case None => env
  {
    var defs := Definitions(lines[..i + 1]);
    assert lines[..i + 1][..i] == lines[..i];
    assert defs[..i] == Definitions(lines[..i]);
    assert defs[i] == ParseEnvLine(lines[i]);
  }

  /** A string with no whitespace at either end strips to itself. */
  lemma StripUnchanged(s: string)
    requires s != [] && !IsSpace(s[0]) && !IsSpace(s[|s| - 1])
    ensures Strip(s) == s
  {
    var i, j :| 0 <= i <= j <= |s| && Strip(s) == s[i..j] && AllSpace(s[..i]) && AllSpace(s[j..]);
    if i > 0 {
      assert s[..i][0] == s[0];
    }
    if j < |s| {
      assert s[j..][|s| - 1 - j] == s[|s| - 1];
    }
  }

  /**
   * A line `KEY=VALUE` whose key holds no `=` is split at that first `=`,
   * with the whitespace around key and value removed and the value unquoted;
   * so `SPACES_VAR = value with spaces` defines `value with spaces`.
   */
  lemma EnvLineSplitsAtFirstEquals(key: string, value: string)
    requires '=' !in key && Strip(key) != [] && !IsSpace(key[0]) && key[0] != '#'
    requires value != [] && !IsSpace(value[|value| - 1])
    ensures ParseEnvLine(key + "=" + value) == Some((Strip(key), Unquote(Strip(value))))
  {
    var line := key + "=" + value;
    assert line[0] == key[0];
    assert line[|line| - 1] == value[|value| - 1];
    StripUnchanged(line);
    assert line[|key|] == '=';
    assert line[..|key|] == key;
    assert line[|key| + 1..] == value;
    assert !StartsWith(line, "#") by {
      assert line[0] == key[0];
    }
  }

  lemma {:induction false} AssignKeys(defs: seq<Option<(string, string)>>, key: string)
    ensures key in Assign(defs) <==> exists i | 0 <= i < |defs| :: defs[i].Some? && defs[i].value.0 == key
    decreases |defs|
  {
    if defs != [] {
      var init := defs[..|defs| - 1];
      AssignKeys(init, key);
      if key in Assign(init) {
        var i :| 0 <= i < |init| && init[i].Some? && init[i].value.0 == key;
        assert defs[i] == init[i];
      }
      if exists i | 0 <= i < |defs| :: defs[i].Some? && defs[i].value.0 == key {
        var i :| 0 <= i < |defs| && defs[i].Some? && defs[i].value.0 == key;
        if i < |init| {
          assert init[i] == defs[i];
        }
      }
    }
  }

  lemma {:induction false} AssignLastWins(defs: seq<Option<(string, string)>>, i: nat)
    requires i < |defs| && defs[i].Some?
    requires forall j | i < j < |defs| :: defs[j].None? || defs[j].value.0 != defs[i].value.0
    ensures defs[i].value.0 in Assign(defs) && Assign(defs)[defs[i].value.0] == defs[i].value.1
    decreases |defs|
  {
    var init := defs[..|defs| - 1];
    if i < |defs| - 1 {
      assert init[i] == defs[i];
      forall j | i < j < |init|
        ensures init[j].None? || init[j].value.0 != init[i].value.0
      {
        assert init[j] == defs[j];
      }
      AssignLastWins(init, i);
    }
  }

  /** A key is defined exactly when some line defines it. */
  lemma EnvKeys(lines: seq<string>, key: string)
    ensures key in EnvVarsOf(lines) <==> exists i | 0 <= i < |lines| :: ParseEnvLine(lines[i]).Some? && ParseEnvLine(lines[i]).value.0 == key
  {
    AssignKeys(Definitions(lines), key);
  }

  /** A defined key holds the value of the last line that defines it: a later duplicate wins. */
  lemma EnvLastWins(lines: seq<string>, i: nat)
    requires i < |lines| && ParseEnvLine(lines[i]).Some?
    requires forall j | i < j < |lines| :: ParseEnvLine(lines[j]).None? || ParseEnvLine(lines[j]).value.0 != ParseEnvLine(lines[i]).value.0
    ensures var (key, value) := ParseEnvLine(lines[i]).value; key in EnvVarsOf(lines) && EnvVarsOf(lines)[key] == value
  {
    AssignLastWins(Definitions(lines), i);
  }

  /** The manager of one configuration directory. */
  class ConfigManager {

    const configDir: string
    const configPath: string
    var configCache: Option<map<string, Value>>

    constructor(configDir: string)
      ensures this.configDir == configDir && configPath == Join(configDir, "config.yaml")
      ensures configCache == None
    {
      this.configDir := configDir;
      configPath := Join(configDir, "config.yaml");
      configCache := None;
    }

    /**
     * `load_config`: the cached configuration when there is one; otherwise
     * the defaults with the user's default keys written over them, then cached.
     */
    method LoadConfig(user: UserConfig) returns (config: map<string, Value>)
      modifies this
      ensures old(configCache).Some? ==> config == old(configCache).value
      ensures old(configCache).None? ==> config == ConfigFrom(user)
      ensures configCache == Some(config)
    {
      if configCache.Some? {
        return configCache.value;
      }
      config := DefaultConfig;
      if user.Items? {
        var items := user.items;
        var i := 0;
        while i < |items|
          invariant 0 <= i <= |items|
          invariant config == Merged(items[..i])
        {
          var (key, value) := items[i];
          assert items[..i + 1][..i] == items[..i];
          if key in DefaultConfig {
            config := config[key := value];
          }
          i := i + 1;
        }
        assert items[..|items|] == items;
      }
      configCache := Some(config);
    }

    /** `get_brightness`: the clamped setting of the (loaded) configuration; `None` when `int()` raises. */
    method GetBrightness(user: UserConfig) returns (brightness: Option<int>)
      modifies this
      ensures configCache.Some? && configCache == if old(configCache).Some? then old(configCache) else Some(ConfigFrom(user))
      ensures brightness == BrightnessSetting(configCache.value)
    {
      var config := LoadConfig(user);
      brightness := BrightnessSetting(config);
    }

    /**
     * `apply_all_settings`: with a device, the brightness to set on it
     * (`None` when reading it raised, which is caught); with a debouncer,
     * the configuration is loaded for its debounce interval, which is not
     * modelled. Either loads the configuration into the cache.
     */
    method ApplyAllSettings(hasDeck: bool, hasDebouncer: bool, user: UserConfig) returns (brightness: Option<int>)
      modifies this
      ensures hasDeck || hasDebouncer ==> configCache == (if old(configCache).Some? then old(configCache) else Some(ConfigFrom(user)))
      ensures !hasDeck && !hasDebouncer ==> configCache == old(configCache)
      ensures hasDeck ==> configCache.Some? && brightness == BrightnessSetting(configCache.value)
      ensures !hasDeck ==> brightness == None
    {
      brightness := None;
      if hasDeck {
        brightness := GetBrightness(user);
      }
      if hasDebouncer {
        var _ := LoadConfig(user);
      }
    }

    /** `reload_config`: drops the cache, then applies the settings, which reads the file afresh. */
    method ReloadConfig(hasDeck: bool, hasDebouncer: bool, user: UserConfig) returns (brightness: Option<int>)
      modifies this
      ensures configCache == if hasDeck || hasDebouncer then Some(ConfigFrom(user)) else None
      ensures brightness == if hasDeck then BrightnessSetting(ConfigFrom(user)) else None
    {
      configCache := None;
      brightness := ApplyAllSettings(hasDeck, hasDebouncer, user);
    }

    /**
     * `load_env_vars`: empty when `env.local` is missing, otherwise the
     * variables its lines define (the lines read before any read error).
     */
    method LoadEnvVars(file: Option<seq<string>>) returns (env: map<string, string>)
      ensures file.None? ==> env == map[]
      ensures file.Some? ==> env == EnvVarsOf(file.value)
    {
      env := map[];
      if file.None? {
        return;
      }
      var lines := file.value;
      var i := 0;
      while i < |lines|
        invariant 0 <= i <= |lines|
        invariant env == EnvVarsOf(lines[..i])
      {
        var parsed := ParseEnvLine(lines[i]);
        EnvVarsStep(lines, i);
        if parsed.Some? {
          env := env[parsed.value.0 := parsed.value.1];
        }
        i := i + 1;
      }
      assert lines[..|lines|] == lines;
    }
  }

  /** The module-level shared instance behind `get_config`. */
  class ConfigRegistry {

    /** `CONFIG_DIR`, the expanded default directory. */
    const defaultDir: string
    var current: ConfigManager?
    var currentDir: Option<string>

    constructor(defaultDir: string)
      ensures this.defaultDir == defaultDir && current == null && currentDir == None
    {
      this.defaultDir := defaultDir;
      current := null;
      currentDir := None;
    }

    /**
     * `get_config`: the existing instance unless there is none or a
     * different directory is asked for; then a fresh manager for that
     * directory (the default one when none is given and none exists).
     */
    method GetConfig(dir: Option<string>) returns (config: ConfigManager)
      modifies this
      ensures old(current) != null && (dir.None? || dir == old(currentDir)) ==>
                config == old(current) && current == old(current) && currentDir == old(currentDir)
      ensures old(current) == null || (dir.Some? && dir != old(currentDir)) ==>
                fresh(config) && config.configDir == dir.GetOr(defaultDir) && config.configCache == None &&
                current == config && currentDir == Some(config.configDir)
    {
      if current == null {
        var d := dir.GetOr(defaultDir);
        currentDir := Some(d);
        current := new ConfigManager(d);
      } else if dir.Some? && dir != currentDir {
        currentDir := dir;
        current := new ConfigManager(dir.value);
      }
      config := current;
    }
  }
}
