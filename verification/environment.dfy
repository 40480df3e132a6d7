/** The configuration read from environment variables (src/helpers/environment.js): the
    per-platform data directory, the `get*Config` readers with their defaults, and the
    start-up validation.  The environment is a map from variable names to values; the
    platform, the home directory and the Node version are inputs.
 */
module Environment {
  import opened Wrappers
  import opened Text

  type Env = map<string, string>

  const AppName: string := "蛐蛐"
  const MinNodeMajor: int := 18
  const DirIssuePrefix: string := "无法创建数据目录: "

  // ---------------------------------------------------------------------------
  // Reading variables

  /** `parseInt(process.env[key]) || dflt`: NaN and 0 both give the default. */
  function IntOr(env: Env, key: string, dflt: int): (n: int)
    ensures key !in env ==> n == dflt
    ensures key in env && ParseInt(env[key]).Some? && ParseInt(env[key]).value != 0 ==> n == ParseInt(env[key]).value
    ensures key in env && (ParseInt(env[key]).None? || ParseInt(env[key]) == Some(0)) ==> n == dflt
  {
    if key in env then
      match ParseInt(env[key])
      case Some(v) => if v != 0 then v else dflt
      case None => dflt
    else dflt
  }

  /** `process.env[key] || dflt`. */
  function StrOr(env: Env, key: string, dflt: string): (s: string)
    ensures key in env && env[key] != [] ==> s == env[key]
    ensures !(key in env && env[key] != []) ==> s == dflt
  {
    if key in env && env[key] != [] then env[key] else dflt
  }

  /** `process.env[key] === "true"`. */
  predicate Flag(env: Env, key: string) {
    key in env && env[key] == "true"
  }

  // ---------------------------------------------------------------------------
  // The readers

  datatype AudioConfig = AudioConfig(sampleRate: int, channels: int, format: string)

  function Audio(env: Env): (c: AudioConfig)
    ensures c.sampleRate == IntOr(env, "AUDIO_SAMPLE_RATE", 16000)
    ensures c.channels == IntOr(env, "AUDIO_CHANNELS", 1)
    ensures c.format == StrOr(env, "AUDIO_FORMAT", "wav")
  {
    AudioConfig(IntOr(env, "AUDIO_SAMPLE_RATE", 16000), IntOr(env, "AUDIO_CHANNELS", 1), StrOr(env, "AUDIO_FORMAT", "wav"))
  }

  datatype FunAsrConfig = FunAsrConfig(modelDir: string, cacheDir: string, batchSize: int, hotwords: seq<string>)

  /** `HOTWORDS ? HOTWORDS.split(",") : []`. */
  function Hotwords(env: Env): (ws: seq<string>)
    ensures "HOTWORDS" in env && env["HOTWORDS"] != [] ==> Join(ws, ",") == env["HOTWORDS"]
    ensures !("HOTWORDS" in env && env["HOTWORDS"] != []) ==> ws == []
    ensures forall i :: 0 <= i < |ws| ==> ',' !in ws[i]
  {
    if "HOTWORDS" in env && env["HOTWORDS"] != [] then
      JoinSplit(env["HOTWORDS"], ',');
      Split(env["HOTWORDS"], ',')
    else []
  }

  function FunAsr(env: Env): (c: FunAsrConfig)
    ensures c.modelDir == StrOr(env, "FUNASR_MODEL_DIR", "./models")
    ensures c.cacheDir == StrOr(env, "FUNASR_CACHE_DIR", "./cache")
    ensures c.batchSize == IntOr(env, "BATCH_SIZE", 300)
    ensures c.hotwords == Hotwords(env)
  {
    FunAsrConfig(StrOr(env, "FUNASR_MODEL_DIR", "./models"), StrOr(env, "FUNASR_CACHE_DIR", "./cache"),
                 IntOr(env, "BATCH_SIZE", 300), Hotwords(env))
  }

  datatype AppConfig = AppConfig(debug: bool, logLevel: string, language: string, theme: string,
                                 windowAlwaysOnTop: bool, startMinimized: bool, globalHotkey: string)

  function App(env: Env): (c: AppConfig)
    ensures c.debug <==> Flag(env, "DEBUG")
    ensures c.windowAlwaysOnTop <==> Flag(env, "WINDOW_ALWAYS_ON_TOP")
    ensures c.startMinimized <==> Flag(env, "START_MINIMIZED")
    ensures c.logLevel == StrOr(env, "LOG_LEVEL", "info") && c.language == StrOr(env, "LANGUAGE", "zh-CN")
    ensures c.theme == StrOr(env, "THEME", "auto")
    ensures c.globalHotkey == StrOr(env, "GLOBAL_HOTKEY", "CommandOrControl+Shift+Space")
  {
    AppConfig(Flag(env, "DEBUG"), StrOr(env, "LOG_LEVEL", "info"), StrOr(env, "LANGUAGE", "zh-CN"),
              StrOr(env, "THEME", "auto"), Flag(env, "WINDOW_ALWAYS_ON_TOP"), Flag(env, "START_MINIMIZED"),
              StrOr(env, "GLOBAL_HOTKEY", "CommandOrControl+Shift+Space"))
  }

  datatype DatabaseConfig = DatabaseConfig(path: string, backupEnabled: bool, backupInterval: int)

  /** Backups are on unless the variable is exactly "false". */
  function Database(env: Env): (c: DatabaseConfig)
    ensures c.backupEnabled <==> !("BACKUP_ENABLED" in env && env["BACKUP_ENABLED"] == "false")
    ensures c.path == StrOr(env, "DATABASE_PATH", "./data/transcriptions.db")
    ensures c.backupInterval == IntOr(env, "BACKUP_INTERVAL", 24)
  {
    DatabaseConfig(StrOr(env, "DATABASE_PATH", "./data/transcriptions.db"),
                   !("BACKUP_ENABLED" in env && env["BACKUP_ENABLED"] == "false"),
                   IntOr(env, "BACKUP_INTERVAL", 24))
  }

  datatype ProxyConfig = ProxyConfig(http: string, https: string)

  function Proxy(env: Env): (c: ProxyConfig)
    ensures c.http == StrOr(env, "HTTP_PROXY", []) && c.https == StrOr(env, "HTTPS_PROXY", [])
  {
    ProxyConfig(StrOr(env, "HTTP_PROXY", []), StrOr(env, "HTTPS_PROXY", []))
  }

  datatype PerformanceConfig = PerformanceConfig(maxRecordingDuration: int, maxTextLength: int)

  function Performance(env: Env): (c: PerformanceConfig)
    ensures c.maxRecordingDuration == IntOr(env, "MAX_RECORDING_DURATION", 300)
    ensures c.maxTextLength == IntOr(env, "MAX_TEXT_LENGTH", 10000)
  {
    PerformanceConfig(IntOr(env, "MAX_RECORDING_DURATION", 300), IntOr(env, "MAX_TEXT_LENGTH", 10000))
  }

  /** A numeric setting written as a non-zero integer reads back as that integer; written
      as zero it reads as the default, as it does when absent. */
  lemma IntSettingRoundTrip(env: Env, key: string, n: int, dflt: int)
    ensures IntOr(env[key := IntToString(n)], key, dflt) == (if n != 0 then n else dflt)
    ensures IntOr(env - {key}, key, dflt) == dflt
  {
    ReadsBack(n);
  }

  lemma ReadsBack(n: int)
    ensures ParseInt(IntToString(n)) == Some(n)
  {
    ParseIntOfIntToString(n, []);
    assert IntToString(n) + [] == IntToString(n);
  }

  /** Hot words written joined by commas are read back one by one. */
  lemma HotwordsRoundTrip(env: Env, words: seq<string>)
    requires |words| >= 1 && forall i :: 0 <= i < |words| ==> ',' !in words[i]
    requires Join(words, ",") != []
    ensures Hotwords(env["HOTWORDS" := Join(words, ",")]) == words
  {
    SplitJoin(words, ',');
  }

  /** Every configured number is non-zero when its default is. */
  lemma NumbersNeverZero(env: Env)
    ensures var a := Audio(env); a.sampleRate != 0 && a.channels != 0
    ensures FunAsr(env).batchSize != 0 && Database(env).backupInterval != 0
    ensures Performance(env).maxRecordingDuration != 0 && Performance(env).maxTextLength != 0
  {
  }

  // ---------------------------------------------------------------------------
  // The data directory

  datatype Platform = Win32 | Darwin | Linux | Other

  /** `path.join`'s separator. */
  function PathSep(p: Platform): string {
    if p == Win32 then "\\" else "/"
  }

  /** `path.join` over segments that need no normalisation. */
  function PathJoin(p: Platform, parts: seq<string>): string {
    Join(parts, PathSep(p))
  }

  /** `getDataDirectory`: the application's directory under the home directory, by
      platform.  Lower-casing leaves the application name unchanged. */
  function DataDirectory(p: Platform, home: string): string {
    match p
    case Win32 => PathJoin(p, [home, "AppData", "Roaming", AppName])
    case Darwin => PathJoin(p, [home, "Library", "Application Support", AppName])
    case Linux => PathJoin(p, [home, ".config", AppName])
    case Other => PathJoin(p, [home, "." + AppName])
  }

  lemma Join2(a: string, b: string, sep: string)
    ensures Join([a, b], sep) == a + sep + b
  {
    assert [a, b][1..] == [b];
  }

  lemma Join3(a: string, b: string, c: string, sep: string)
    ensures Join([a, b, c], sep) == a + sep + b + sep + c
  {
    assert [a, b, c][1..] == [b, c];
    Join2(b, c, sep);
  }

  lemma Join4(a: string, b: string, c: string, d: string, sep: string)
    ensures Join([a, b, c, d], sep) == a + sep + b + sep + c + sep + d
  {
    assert [a, b, c, d][1..] == [b, c, d];
    Join3(b, c, d, sep);
  }

  /** The directory on each platform, written out. */
  lemma DataDirectoryPaths(home: string)
    ensures DataDirectory(Win32, home) == home + "\\AppData\\Roaming\\" + AppName
    ensures DataDirectory(Darwin, home) == home + "/Library/Application Support/" + AppName
    ensures DataDirectory(Linux, home) == home + "/.config/" + AppName
    ensures DataDirectory(Other, home) == home + "/." + AppName
  {
    WindowsDirectory(home);
    MacDirectory(home);
    LinuxDirectory(home);
    OtherDirectory(home);
  }

  lemma WindowsDirectory(home: string)
    ensures DataDirectory(Win32, home) == home + "\\AppData\\Roaming\\" + AppName
  {
    Join4(home, "AppData", "Roaming", AppName, "\\");
    Concat5(home, "\\", "AppData", "\\", "Roaming", "\\", AppName);
  }

  lemma MacDirectory(home: string)
    ensures DataDirectory(Darwin, home) == home + "/Library/Application Support/" + AppName
  {
    Join4(home, "Library", "Application Support", AppName, "/");
    Concat5(home, "/", "Library", "/", "Application Support", "/", AppName);
    MacMiddle("/" + "Library" + "/" + "Application Support" + "/");
  }

  lemma MacMiddle(m: string)
    requires m == "/" + "Library" + "/" + "Application Support" + "/"
    ensures m == "/Library/Application Support/"
  {
  }

  lemma LinuxDirectory(home: string)
    ensures DataDirectory(Linux, home) == home + "/.config/" + AppName
  {
    Join3(home, ".config", AppName, "/");
    assert home + "/" + ".config" + "/" + AppName == home + ("/" + ".config" + "/") + AppName;
  }

  lemma OtherDirectory(home: string)
    ensures DataDirectory(Other, home) == home + "/." + AppName
  {
    Join2(home, "." + AppName, "/");
    assert home + "/" + ("." + AppName) == home + ("/" + ".") + AppName;
  }

  /** Regrouping the middle of a seven-part concatenation. */
  lemma Concat5(h: string, a: string, b: string, c: string, d: string, e: string, t: string)
    ensures h + a + b + c + d + e + t == h + (a + b + c + d + e) + t
  {
  }

  /** Each platform has its own directory. */
  lemma DataDirectoriesDiffer(home: string, p: Platform, q: Platform)
    requires p != q
    ensures DataDirectory(p, home) != DataDirectory(q, home)
  {
    DataDirectoryPaths(home);
    assert |DataDirectory(p, home)| != |DataDirectory(q, home)|;
  }

  // ---------------------------------------------------------------------------
  // validateEnvironment

  datatype Validation = Validation(valid: bool, issues: seq<string>)

  /** The Node major version below the minimum: `parseInt(version.substring(1)) < 18`,
      which is false for NaN. */
  predicate NodeTooOld(nodeVersion: string) {
    var v := if |nodeVersion| > 0 then nodeVersion[1..] else [];
    ParseInt(v).Some? && ParseInt(v).value < MinNodeMajor
  }

  /** `validateEnvironment`: the data-directory failure, then the Node version. */
  function Validate(dirError: Option<string>, nodeVersion: string): (r: Validation)
    ensures r.valid <==> r.issues == []
    ensures r.valid <==> dirError.None? && !NodeTooOld(nodeVersion)
    ensures dirError.Some? ==> |r.issues| >= 1 && r.issues[0] == DirIssuePrefix + dirError.value
    ensures |r.issues| == (if dirError.Some? then 1 else 0) + (if NodeTooOld(nodeVersion) then 1 else 0)
  {
    var a := if dirError.Some? then [DirIssuePrefix + dirError.value] else [];
    var b := if NodeTooOld(nodeVersion) then ["Node.js 版本过低: " + nodeVersion + "，需要 18+"] else [];
    Validation(a + b == [], a + b)
  }

  /** A Node version `v<major>.<rest>` is flagged exactly when the major is below 18. */
  lemma NodeMajorDecides(major: nat, rest: string)
    requires rest == [] || rest[0] == '.'
    ensures NodeTooOld("v" + NatToString(major) + rest) <==> major < 18
  {
    var d := NatToString(major);
    var u := d + rest;
    var s := "v" + d + rest;
    assert s == "v" + u;
    AfterPrefix("v", u);
    ParseIntOfNonNegative(major, rest);
    MajorDecides(s, major);
  }

  lemma AfterPrefix(c: string, u: string)
    requires |c| == 1
    ensures (c + u)[1..] == u
  {
  }

  lemma MajorDecides(s: string, major: int)
    requires |s| > 0 && ParseInt(s[1..]) == Some(major)
    ensures NodeTooOld(s) <==> major < MinNodeMajor
  {
  }
}
