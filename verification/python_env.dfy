/** The Python runtime the supervisor launches (src/helpers/funasrManager.js): the
    environment map handed to the worker, the process-wide environment isolation, the
    `--version` probe, and the search for a usable interpreter.

    Paths are sequences of segments below the file-system root; whether the bundled
    interpreter exists and what each `--version` probe printed are inputs.
 */
module PythonEnv {
  import opened Wrappers
  import opened Text

  type Env = map<string, string>
  type Path = seq<string>

  /** A POSIX path as text. */
  function PathText(p: Path): string {
    "/" + Join(p, "/")
  }

  /** `path.dirname`, for a path of at least one segment. */
  function Dirname(p: Path): Path {
    if p == [] then [] else p[..|p| - 1]
  }

  /** The bundled runtime's home: two levels above `bin/python3.11`. */
  function PythonHome(exe: Path): Path {
    Dirname(Dirname(exe))
  }

  /** The three settings every worker environment carries. */
  const BaseSettings: Env := map["PYTHONDONTWRITEBYTECODE" := "1", "PYTHONIOENCODING" := "utf-8",
                                 "PYTHONUNBUFFERED" := "1"]

  /** The settings that would let a user installation leak into the worker. */
  const Scrubbed: set<string> := {"PYTHONUSERBASE", "PYTHONSTARTUP", "VIRTUAL_ENV"}

  /** The settings that point Python at the bundled runtime. */
  function EmbeddedSettings(exe: Path): Env {
    var home := PythonHome(exe);
    map["PYTHONHOME" := PathText(home),
        "PYTHONPATH" := PathText(home + ["lib", "python3.11", "site-packages"]),
        "LD_LIBRARY_PATH" := PathText(home + ["lib"]),
        "DYLD_LIBRARY_PATH" := PathText(home + ["lib"])]
  }

  const EmbeddedKeys: set<string> := {"PYTHONHOME", "PYTHONPATH", "LD_LIBRARY_PATH", "DYLD_LIBRARY_PATH"}

  /** The value one key ends up with in `buildPythonEnvironment`: the scrubbed keys are
      deleted last, the bundled runtime's settings override the user-data directory, which
      overrides the base settings, which override the process environment. */
  function BuiltValue(process: Env, embedded: bool, exe: Path, userData: Option<string>, k: string): Option<string> {
    if k in Scrubbed then None
    else if embedded && k in EmbeddedKeys then Some(EmbeddedSettings(exe)[k])
    else if k == "ELECTRON_USER_DATA" && userData.Some? then Some(userData.value)
    else if k in BaseSettings then Some(BaseSettings[k])
    else if k in process then Some(process[k])
    else None
  }

  /** `buildPythonEnvironment` without its memo. */
  function BuildEnv(process: Env, embedded: bool, exe: Path, userData: Option<string>): Env {
    var e1 := process + BaseSettings;
    var e2 := if userData.Some? then e1["ELECTRON_USER_DATA" := userData.value] else e1;
    var e3 := if embedded then e2 + EmbeddedSettings(exe) else e2;
    e3 - Scrubbed
  }

  /** The map agrees key by key with the layered definition. */
  lemma BuildEnvAgrees(process: Env, embedded: bool, exe: Path, userData: Option<string>, k: string)
    ensures var e := BuildEnv(process, embedded, exe, userData);
      var v := BuiltValue(process, embedded, exe, userData, k);
      && (k in e <==> v.Some?)
      && (k in e ==> e[k] == v.value)
  {
  }

  /** The worker never sees the scrubbed keys, always sees the base settings, sees the
      bundled runtime's home and library paths exactly when it exists, and otherwise
      inherits the process environment. */
  lemma BuildEnvSettings(process: Env, embedded: bool, exe: Path, userData: Option<string>)
    ensures var e := BuildEnv(process, embedded, exe, userData);
      && "PYTHONUSERBASE" !in e && "PYTHONSTARTUP" !in e && "VIRTUAL_ENV" !in e
      && e["PYTHONDONTWRITEBYTECODE"] == "1" && e["PYTHONIOENCODING"] == "utf-8"
      && e["PYTHONUNBUFFERED"] == "1"
      && (embedded ==> e["PYTHONHOME"] == PathText(PythonHome(exe))
                       && e["PYTHONPATH"] == PathText(PythonHome(exe) + ["lib", "python3.11", "site-packages"])
                       && e["LD_LIBRARY_PATH"] == PathText(PythonHome(exe) + ["lib"]))
      && (!embedded ==> ("PYTHONHOME" in e <==> "PYTHONHOME" in process)
                        && ("PYTHONPATH" in e <==> "PYTHONPATH" in process))
  {
    BuildEnvAgrees(process, embedded, exe, userData, "PYTHONUSERBASE");
    BuildEnvAgrees(process, embedded, exe, userData, "PYTHONSTARTUP");
    BuildEnvAgrees(process, embedded, exe, userData, "VIRTUAL_ENV");
    BuildEnvAgrees(process, embedded, exe, userData, "PYTHONDONTWRITEBYTECODE");
    BuildEnvAgrees(process, embedded, exe, userData, "PYTHONIOENCODING");
    BuildEnvAgrees(process, embedded, exe, userData, "PYTHONUNBUFFERED");
    BuildEnvAgrees(process, embedded, exe, userData, "PYTHONHOME");
    BuildEnvAgrees(process, embedded, exe, userData, "PYTHONPATH");
    BuildEnvAgrees(process, embedded, exe, userData, "LD_LIBRARY_PATH");
    assert "PYTHONUSERBASE" in Scrubbed && "PYTHONSTARTUP" in Scrubbed && "VIRTUAL_ENV" in Scrubbed;
    assert BuiltValue(process, embedded, exe, userData, "PYTHONDONTWRITEBYTECODE") == Some("1");
    assert BuiltValue(process, embedded, exe, userData, "PYTHONIOENCODING") == Some("utf-8");
    assert BuiltValue(process, embedded, exe, userData, "PYTHONUNBUFFERED") == Some("1");
    if embedded {
      assert BuiltValue(process, embedded, exe, userData, "PYTHONHOME") == Some(PathText(PythonHome(exe)));
      assert BuiltValue(process, embedded, exe, userData, "PYTHONPATH")
        == Some(PathText(PythonHome(exe) + ["lib", "python3.11", "site-packages"]));
      assert BuiltValue(process, embedded, exe, userData, "LD_LIBRARY_PATH") == Some(PathText(PythonHome(exe) + ["lib"]));
    } else {
      assert "PYTHONHOME" !in Scrubbed && "PYTHONHOME" !in BaseSettings;
      assert "PYTHONPATH" !in Scrubbed && "PYTHONPATH" !in BaseSettings;
    }
  }

  /** Every other key of the process environment reaches the worker unchanged. */
  lemma BuildEnvInherits(process: Env, embedded: bool, exe: Path, userData: Option<string>, k: string)
    requires k in process && k !in Scrubbed && k !in BaseSettings && k !in EmbeddedKeys
    requires k != "ELECTRON_USER_DATA"
    ensures var e := BuildEnv(process, embedded, exe, userData); k in e && e[k] == process[k]
  {
    BuildEnvAgrees(process, embedded, exe, userData, k);
  }

  /** The memo: the last map built and the existence flag it was built for. */
  datatype Memo = Memo(cached: Option<Env>, lastEmbedded: bool)

  const NoMemo: Memo := Memo(None, false)

  /** `buildPythonEnvironment`: the memoised map is returned while the existence flag is
      unchanged, even if the process environment has changed since. */
  function BuildPythonEnvironment(m: Memo, process: Env, embedded: bool, exe: Path,
                                  userData: Option<string>): (r: (Env, Memo))
    ensures r.1.cached == Some(r.0) && r.1.lastEmbedded == embedded
    ensures m.cached.None? || m.lastEmbedded != embedded ==> r.0 == BuildEnv(process, embedded, exe, userData)
  {
    if m.cached.Some? && m.lastEmbedded == embedded then (m.cached.value, m)
    else
      var e := BuildEnv(process, embedded, exe, userData);
      (e, Memo(Some(e), embedded))
  }

  /** `setupIsolatedEnvironment`: the process-wide environment, pointed at the bundled
      runtime when it exists and cleared of any runtime pointers otherwise. */
  function SetupIsolated(process: Env, embedded: bool, exe: Path): (e: Env)
    ensures forall k :: (k in e <==> IsolatedValue(process, embedded, exe, k).Some?)
    ensures forall k :: k in e ==> e[k] == IsolatedValue(process, embedded, exe, k).value
  {
    var home := PythonHome(exe);
    var e := if embedded then
               process["PYTHONHOME" := PathText(home)]
                      ["PYTHONPATH" := PathText(home + ["lib", "python3.11", "site-packages"])]
             else process - {"PYTHONHOME", "PYTHONPATH"};
    (e + BaseSettings) - Scrubbed
  }

  function IsolatedValue(process: Env, embedded: bool, exe: Path, k: string): Option<string> {
    if k in Scrubbed then None
    else if k in BaseSettings then Some(BaseSettings[k])
    else if k == "PYTHONHOME" then (if embedded then Some(PathText(PythonHome(exe))) else None)
    else if k == "PYTHONPATH" then
      (if embedded then Some(PathText(PythonHome(exe) + ["lib", "python3.11", "site-packages"])) else None)
    else if k in process then Some(process[k])
    else None
  }

  /** Isolation points the process at the bundled runtime when it exists and removes any
      runtime pointer when it does not. */
  lemma IsolationSettings(process: Env, embedded: bool, exe: Path)
    ensures var e := SetupIsolated(process, embedded, exe);
      && "PYTHONUSERBASE" !in e && "PYTHONSTARTUP" !in e && "VIRTUAL_ENV" !in e
      && (embedded ==> e["PYTHONHOME"] == PathText(PythonHome(exe)))
      && (!embedded ==> "PYTHONHOME" !in e && "PYTHONPATH" !in e)
  {
    assert "PYTHONUSERBASE" in Scrubbed && "PYTHONSTARTUP" in Scrubbed && "VIRTUAL_ENV" in Scrubbed;
    assert "PYTHONHOME" !in Scrubbed && "PYTHONHOME" !in BaseSettings;
    assert "PYTHONPATH" !in Scrubbed && "PYTHONPATH" !in BaseSettings;
  }

  // ---------------------------------------------------------------------------
  // The version probe

  datatype Version = Version(major: nat, minor: nat)

  /** How a `--version` probe ended: the exit code (absent for a signal) with everything
      printed on either stream, or a spawn error. */
  datatype Probe = Exited(code: Option<int>, output: string) | SpawnFailed

  /** The regular expression `Python (\d+)\.(\d+)`, case-insensitive, matching at `i`. */
  predicate MatchesAt(s: string, i: nat) {
    i + 7 <= |s| && ToLowerAscii(s[i..i + 6]) == "python" && s[i + 6] == ' '
    && var major := TakeWhile(s[i + 7..], IsDigit);
       major != [] && i + 7 + |major| < |s| && s[i + 7 + |major|] == '.'
       && TakeWhile(s[i + 8 + |major|..], IsDigit) != []
  }

  function VersionAt(s: string, i: nat): Version
    requires MatchesAt(s, i)
  {
    var major := TakeWhile(s[i + 7..], IsDigit);
    var minor := TakeWhile(s[i + 8 + |major|..], IsDigit);
    Version(DigitsValue(major), DigitsValue(minor))
  }

  /** The leftmost match from position `i` on. */
  function FirstMatchFrom(s: string, i: nat): (r: Option<nat>)
    ensures r.Some? ==> i <= r.value && MatchesAt(s, r.value)
                        && forall j :: i <= j < r.value ==> !MatchesAt(s, j)
    ensures r.None? ==> forall j :: i <= j ==> !MatchesAt(s, j)
    decreases |s| - i
  {
    if i + 7 > |s| then None
    else if MatchesAt(s, i) then Some(i)
    else FirstMatchFrom(s, i + 1)
  }

  /** The version the leftmost match names. */
  function ParseVersion(output: string): Option<Version> {
    match FirstMatchFrom(output, 0)
    case None => None
    case Some(i) => Some(VersionAt(output, i))
  }

  /** A version is read exactly when the pattern matches somewhere, and it is the one the
      leftmost match names. */
  lemma ParseVersionFound(output: string)
    ensures ParseVersion(output).Some? <==> exists i :: MatchesAt(output, i)
    ensures ParseVersion(output).Some? ==>
      exists i: nat :: MatchesAt(output, i) && ParseVersion(output).value == VersionAt(output, i)
                  && forall j :: 0 <= j < i ==> !MatchesAt(output, j)
  {
    match FirstMatchFrom(output, 0)
    case None =>
    case Some(i) =>
  }

  /** `getPythonVersion`: a version only from a clean exit whose output names one. */
  function GetPythonVersion(p: Probe): (v: Option<Version>)
    ensures v.Some? ==> p.Exited? && p.code == Some(0)
    ensures p.Exited? && p.code == Some(0) ==> v == ParseVersion(p.output)
  {
    match p
    case Exited(code, output) => if code == Some(0) then ParseVersion(output) else None
    case SpawnFailed => None
  }

  /** Any Python 3 is accepted. */
  predicate Supported(v: Option<Version>) {
    v.Some? && v.value.major == 3
  }

  lemma VersionBanner(major: nat, minor: nat, rest: string)
    requires rest == [] || !IsDigit(rest[0])
    ensures ParseVersion("Python " + NatToString(major) + "." + NatToString(minor) + rest)
            == Some(Version(major, minor))
  {
    var a := NatToString(major);
    var b := NatToString(minor);
    var s := "Python " + a + "." + b + rest;
    BannerMatches(s, a, b, rest);
    assert FirstMatchFrom(s, 0) == Some(0);
  }

  lemma BannerMatches(s: string, a: string, b: string, rest: string)
    requires IsCanonicalNumeral(a) && IsCanonicalNumeral(b)
    requires rest == [] || !IsDigit(rest[0])
    requires s == "Python " + a + "." + b + rest
    ensures MatchesAt(s, 0) && VersionAt(s, 0) == Version(DigitsValue(a), DigitsValue(b))
  {
    assert s[0..6] == "Python";
    LowerPython();
    assert s[6] == ' ';
    assert s[7..] == a + ("." + b + rest);
    TakeWhileDigits(a, "." + b + rest);
    assert s[7 + |a|] == '.';
    assert s[8 + |a|..] == b + rest;
    TakeWhileDigits(b, rest);
  }

  lemma LowerPython()
    ensures ToLowerAscii("Python") == "python"
  {
    var r := ToLowerAscii("Python");
    assert r[0] == 'p' && r[1] == 'y' && r[2] == 't' && r[3] == 'h' && r[4] == 'o' && r[5] == 'n';
  }

  // ---------------------------------------------------------------------------
  // Finding the interpreter

  const EmbeddedUnavailableMessage: string := "嵌入式Python环境不可用。请重新安装应用或运行构建脚本准备Python环境。"
  const NoPythonMessage: string := "未找到 Python 3.x。使用 installPython() 自动安装。"

  /** The development fallbacks, in the order they are tried: the project's virtual
      environment (with the Windows layout first on Windows), then the usual commands and
      locations. */
  function Candidates(projectRoot: Path, windows: bool): (cs: seq<string>)
    ensures |cs| == (if windows then 16 else 14)
  {
    var venv := projectRoot + [".venv"];
    (if windows then [PathText(venv + ["Scripts", "python.exe"]), PathText(venv + ["Scripts", "python3.exe"])]
     else [])
    + [PathText(venv + ["bin", "python3.11"]), PathText(venv + ["bin", "python3"]),
       PathText(venv + ["bin", "python"]),
       "python3.11", "python3", "python",
       "/usr/bin/python3.11", "/usr/bin/python3", "/usr/local/bin/python3.11", "/usr/local/bin/python3",
       "/opt/homebrew/bin/python3.11", "/opt/homebrew/bin/python3", "/usr/bin/python", "/usr/local/bin/python"]
  }

  /** What probing each command would print; a command with no entry fails to spawn. */
  function ProbeOf(probes: map<string, Probe>, cmd: string): Probe {
    if cmd in probes then probes[cmd] else SpawnFailed
  }

  /** A command whose probe reports Python 3. */
  predicate Usable(probes: map<string, Probe>, cmd: string) {
    Supported(GetPythonVersion(ProbeOf(probes, cmd)))
  }

  /** The first candidate whose probe reports Python 3. */
  function FirstSupported(cs: seq<string>, probes: map<string, Probe>): (r: Option<nat>)
    ensures r.Some? ==> r.value < |cs| && Usable(probes, cs[r.value])
                        && forall j :: 0 <= j < r.value ==> !Usable(probes, cs[j])
    ensures r.None? ==> forall j :: 0 <= j < |cs| ==> !Usable(probes, cs[j])
  {
    FirstSupportedFrom(cs, probes, 0)
  }

  /** The first candidate at index `k` or later whose probe reports Python 3. */
  function FirstSupportedFrom(cs: seq<string>, probes: map<string, Probe>, k: nat): (r: Option<nat>)
    requires k <= |cs|
    ensures r.Some? ==> k <= r.value < |cs| && Usable(probes, cs[r.value])
                        && forall j :: k <= j < r.value ==> !Usable(probes, cs[j])
    ensures r.None? ==> forall j :: k <= j < |cs| ==> !Usable(probes, cs[j])
    decreases |cs| - k
  {
    if k == |cs| then None
    else if Usable(probes, cs[k]) then Some(k)
    else FirstSupportedFrom(cs, probes, k + 1)
  }

  /** The supervisor's runtime state: the remembered interpreter, the process-wide
      environment and the environment memo. */
  datatype Runtime = Runtime(pythonCmd: Option<string>, process: Env, memo: Memo)

  /** Where the search happens: the bundled interpreter's path and whether it exists,
      development mode, the platform, and the probes. */
  datatype Host = Host(exe: Path, embeddedExists: bool, development: bool, windows: bool,
                       projectRoot: Path, userData: Option<string>, probes: map<string, Probe>)

  /** `findPythonExecutable`: the remembered interpreter if any; else the bundled one when
      it exists and reports Python 3; else, in development only, the first fallback that
      reports Python 3. */
  function FindPython(rt: Runtime, h: Host): (r: (Result<string>, Runtime))
    ensures rt.pythonCmd.Some? ==> r == (Success(rt.pythonCmd.value), rt)
    ensures r.0.Success? ==> r.1.pythonCmd == Some(r.0.value)
    ensures r.0.Failure? ==> r.1.pythonCmd == rt.pythonCmd
  {
    if rt.pythonCmd.Some? then (Success(rt.pythonCmd.value), rt)
    else
      var exe := PathText(h.exe);
      var rt1 := if h.embeddedExists then
                   var p := SetupIsolated(rt.process, true, h.exe);
                   var (_, m) := BuildPythonEnvironment(rt.memo, p, true, h.exe, h.userData);
                   rt.(process := p, memo := m)
                 else rt;
      if h.embeddedExists && Usable(h.probes, exe) then
        (Success(exe), rt1.(pythonCmd := Some(exe)))
      else if !h.development then (Failure(EmbeddedUnavailableMessage), rt1)
      else
        var cs := Candidates(h.projectRoot, h.windows);
        match FirstSupported(cs, h.probes)
        case None => (Failure(NoPythonMessage), rt1)
        case Some(i) => (Success(cs[i]), rt1.(pythonCmd := Some(cs[i])))
  }

  /** A fresh search accepts only an interpreter whose probe reported Python 3: the bundled
      one first, otherwise the first such fallback in development. */
  lemma FoundReportsPython3(rt: Runtime, h: Host)
    requires rt.pythonCmd.None?
    ensures var r := FindPython(rt, h).0;
      r.Success? ==> Usable(h.probes, r.value)
  {
  }

  /** Outside development an unusable bundled interpreter is an error, whatever the
      fallbacks would have said. */
  lemma ProductionNeverFallsBack(rt: Runtime, h: Host)
    requires rt.pythonCmd.None? && !h.development
    requires !(h.embeddedExists && Usable(h.probes, PathText(h.exe)))
    ensures FindPython(rt, h).0 == Failure(EmbeddedUnavailableMessage)
  {
  }

  /** A usable bundled interpreter always wins, and is remembered. */
  lemma EmbeddedPreferred(rt: Runtime, h: Host)
    requires rt.pythonCmd.None? && h.embeddedExists
    ensures Usable(h.probes, PathText(h.exe)) ==>
      && FindPython(rt, h).0 == Success(PathText(h.exe))
      && FindPython(FindPython(rt, h).1, h).0 == Success(PathText(h.exe))
  {
  }

  /** A second build for the same existence flag returns the first map, even when the
      process environment changed in between. */
  lemma MemoIgnoresLaterChanges(m: Memo, p1: Env, p2: Env, embedded: bool, exe: Path, userData: Option<string>)
    ensures var (e1, m1) := BuildPythonEnvironment(m, p1, embedded, exe, userData);
      BuildPythonEnvironment(m1, p2, embedded, exe, userData) == (e1, m1)
  {
  }
}
