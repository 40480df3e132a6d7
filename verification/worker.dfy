/** The speech worker (funasr_server.py): it resolves the model root, checks that the
    three model directories are ready, loads the models when they are, prints the
    sentinel line and one JSON init result, and then answers one JSON line per command
    line until end of input or an `exit` command.

    The models themselves, the audio files and the Python runtime are replaced by the
    outcomes they produce, given per command as an `Env`.
 */
module Worker {
  import opened Wrappers
  import opened Text
  import opened Json
  import Assets

  type Asset = Assets.Asset
  type Path = Assets.Path
  type Node = Assets.Node

  const Sentinel: string := "__FUNASR_INIT_RESULT__"

  // ---------------------------------------------------------------------------
  // The model root

  /** `--damo-root`, else `DAMO_ROOT`, else the default; an empty value counts as unset. */
  function ModelRoot(fs: Node, arg: Option<Path>, damoRootEnv: Option<Path>,
                     modelscopeCache: Option<Path>, home: Path): (r: Path)
    ensures arg.Some? && arg.value != [] ==> r == arg.value
    ensures (arg.None? || arg.value == []) && damoRootEnv.Some? && damoRootEnv.value != [] ==>
      r == damoRootEnv.value
  {
    if arg.Some? && arg.value != [] then arg.value
    else if damoRootEnv.Some? && damoRootEnv.value != [] then damoRootEnv.value
    else DefaultRoot(fs, modelscopeCache, home)
  }

  /** Under `MODELSCOPE_CACHE`: damo, hub/models/damo, hub/damo, the first that is a
      directory; then the home cache's hub/models/damo when it is a directory, else its
      hub/damo. */
  function DefaultRoot(fs: Node, modelscopeCache: Option<Path>, home: Path): (r: Path)
    ensures var base := home + [".cache", "modelscope", "hub"];
      var c := modelscopeCache.GetOr([]);
      var damo, hubModels, hubDamo := c + ["damo"], c + ["hub", "models", "damo"], c + ["hub", "damo"];
      && ((c != [] && Assets.IsDir(fs, damo)) ==> r == damo)
      && ((c != [] && !Assets.IsDir(fs, damo) && Assets.IsDir(fs, hubModels)) ==> r == hubModels)
      && ((c != [] && !Assets.IsDir(fs, damo) && !Assets.IsDir(fs, hubModels) && Assets.IsDir(fs, hubDamo)) ==>
            r == hubDamo)
      && ((c == [] || (!Assets.IsDir(fs, damo) && !Assets.IsDir(fs, hubModels) && !Assets.IsDir(fs, hubDamo))) ==>
            r == (if Assets.IsDir(fs, base + ["models", "damo"]) then base + ["models", "damo"] else base + ["damo"]))
    ensures Assets.IsDir(fs, r) || r == home + [".cache", "modelscope", "hub", "damo"]
  {
    var base := home + [".cache", "modelscope", "hub"];
    var fallback := if Assets.IsDir(fs, base + ["models", "damo"]) then base + ["models", "damo"]
                    else base + ["damo"];
    if modelscopeCache.Some? && modelscopeCache.value != [] then
      var c := modelscopeCache.value;
      if Assets.IsDir(fs, c + ["damo"]) then c + ["damo"]
      else if Assets.IsDir(fs, c + ["hub", "models", "damo"]) then c + ["hub", "models", "damo"]
      else if Assets.IsDir(fs, c + ["hub", "damo"]) then c + ["hub", "damo"]
      else fallback
    else fallback
  }

  // ---------------------------------------------------------------------------
  // Repository readiness

  /** The seven patterns, as `glob` matches them: a `*` never matches a leading dot. */
  predicate MatchesWeightPattern(name: string) {
    || name == "model.pt" || name == "pytorch_model.bin" || name == "config.json"
    || name == "configuration.json" || name == "model.yaml"
    || (EndsWith(name, ".onnx") && name[0] != '.')
    || StartsWith(name, "vocab")
  }

  /** A repository is ready when it is a directory with an entry matching a pattern. */
  predicate RepoReady(fs: Node, dir: Path) {
    match Assets.At(fs, dir)
    case Some(Dir(es)) => exists i :: 0 <= i < |es| && MatchesWeightPattern(es[i].name)
    case _ => false
  }

  /** The repository directories that are not ready, in asr, vad, punc order. */
  function MissingRepos(fs: Node, root: Path): (m: seq<string>)
    ensures forall a: Asset :: Assets.RepoName(a) in m <==> !RepoReady(fs, root + [Assets.RepoName(a)])
    ensures |m| <= 3
  {
    var all := [Assets.RepoName(Assets.Asr), Assets.RepoName(Assets.Vad), Assets.RepoName(Assets.Punc)];
    var m := NotReady(fs, root, all);
    assert forall a: Asset :: Assets.RepoName(a) in all by {
      forall a: Asset ensures Assets.RepoName(a) in all {
        if a.Asr? { assert all[0] == Assets.RepoName(a); }
        else if a.Vad? { assert all[1] == Assets.RepoName(a); }
        else { assert all[2] == Assets.RepoName(a); }
      }
    }
    m
  }

  function NotReady(fs: Node, root: Path, repos: seq<string>): (m: seq<string>)
    ensures forall r :: r in m <==> r in repos && !RepoReady(fs, root + [r])
    ensures |m| <= |repos|
  {
    if repos == [] then []
    else (if RepoReady(fs, root + [repos[0]]) then [] else [repos[0]]) + NotReady(fs, root, repos[1..])
  }

  // ---------------------------------------------------------------------------
  // Loading the models

  /** How one loader thread ended: it loaded its model, caught an error, or was still
      running when the five minute join gave up. */
  datatype Load = Loaded | LoadFailed | StillRunning

  datatype Loads = Loads(asr: Load, vad: Load, punc: Load) {
    function Of(a: Asset): Load {
      match a
      case Asr => asr
      case Vad => vad
      case Punc => punc
    }
  }

  /** Which model objects are set. */
  datatype Models = Models(asr: bool, vad: bool, punc: bool)

  /** What loading the models produces: each loader's end, the order in which finished
      loaders recorded their result, and the elapsed time as printed. */
  datatype InitInputs = InitInputs(loads: Loads, order: seq<Asset>, elapsed: string)

  datatype Worker = Worker(initialized: bool, models: Models, transcriptions: nat)

  const Started: Worker := Worker(false, Models(false, false, false), 0)

  const AlreadyInitMessage: string := "模型已初始化"
  const LoadTimeoutMessage: string := "模型加载超时"
  const LoadFailedPrefix: string := "以下模型加载失败: "
  const InitOkPrefix: string := "FunASR模型并行初始化成功，耗时: "
  const ModelsMissingMessage: string := "模型文件未下载，请先下载模型"

  predicate AnyStillRunning(l: Loads) {
    l.asr.StillRunning? || l.vad.StillRunning? || l.punc.StillRunning?
  }

  /** The models whose loader failed, in the order their results were recorded. */
  function FailedLoads(l: Loads, order: seq<Asset>): (fs: seq<Asset>)
    ensures forall a :: a in fs <==> a in order && l.Of(a) == LoadFailed
  {
    if order == [] then []
    else (if l.Of(order[0]) == LoadFailed then [order[0]] else []) + FailedLoads(l, order[1..])
  }

  function Reply(ok: bool, key: string, text: string): Json {
    Obj([Member("success", Bool(ok)), Member(key, Str(text))])
  }

  function TypedError(text: string, kind: string): Json {
    Obj([Member("success", Bool(false)), Member("error", Str(text)), Member("type", Str(kind))])
  }

  predicate Succeeded(v: Json) {
    Get(v, "success") == Some(Bool(true))
  }

  lemma ReplySuccess(ok: bool, key: string, text: string)
    requires key != "success"
    ensures Get(Reply(ok, key, text), "success") == Some(Bool(ok))
    ensures Get(Reply(ok, key, text), key) == Some(Str(text))
  {
    LookupUnique(Reply(ok, key, text).members, 0);
    LookupUnique(Reply(ok, key, text).members, 1);
  }

  lemma TypedErrorType(text: string, kind: string)
    ensures Get(TypedError(text, kind), "type") == Some(Str(kind))
    ensures Get(TypedError(text, kind), "success") == Some(Bool(false))
    ensures Get(TypedError(text, kind), "error") == Some(Str(text))
  {
    var ms := TypedError(text, kind).members;
    LookupUnique(ms, 0);
    LookupUnique(ms, 1);
    LookupUnique(ms, 2);
  }

  /** `initialize`: nothing to do once initialized; otherwise load the three models in
      parallel.  A loader still running after its join times out the whole call; a
      failed loader fails it, naming every failed model. */
  function Initialize(w: Worker, inp: InitInputs): (r: (Json, Worker))
    ensures w.initialized ==> r == (Reply(true, "message", AlreadyInitMessage), w)
    ensures r.1.transcriptions == w.transcriptions
    ensures r.1.initialized <==>
      w.initialized || (!AnyStillRunning(inp.loads) && FailedLoads(inp.loads, inp.order) == [])
    ensures Valid(r.0) && r.0.Obj?
    ensures Succeeded(r.0) <==> r.1.initialized
    ensures Get(r.0, "success") == Some(Bool(r.1.initialized))
  {
    if w.initialized then ReplySuccess(true, "message", AlreadyInitMessage); (Reply(true, "message", AlreadyInitMessage), w)
    else
      var l := inp.loads;
      var models := Models(w.models.asr || l.asr == Loaded, w.models.vad || l.vad == Loaded,
                           w.models.punc || l.punc == Loaded);
      var w1 := w.(models := models);
      var reply := LoadReply(inp);
      if !AnyStillRunning(l) && FailedLoads(l, inp.order) == [] then (reply, w1.(initialized := true))
      else (reply, w1)
  }

  /** The reply of a fresh `initialize`: the timeout error when a loader still runs, else
      the error naming every failed model, else success with the elapsed time. */
  function LoadReply(inp: InitInputs): (r: Json)
    ensures Valid(r) && r.Obj?
    ensures Get(r, "success") == Some(Bool(!AnyStillRunning(inp.loads) && FailedLoads(inp.loads, inp.order) == []))
  {
    var l := inp.loads;
    if AnyStillRunning(l) then
      TypedErrorType(LoadTimeoutMessage, "timeout_error");
      TypedError(LoadTimeoutMessage, "timeout_error")
    else
      var failed := FailedLoads(l, inp.order);
      var failedText := LoadFailedPrefix + Join(Assets.AssetNames(failed), ", ");
      if failed != [] then
        TypedErrorType(failedText, "init_error");
        TypedError(failedText, "init_error")
      else
        ReplySuccess(true, "message", InitOkPrefix + inp.elapsed + "秒");
        Reply(true, "message", InitOkPrefix + inp.elapsed + "秒")
  }

  /** The init result printed at startup: the models are loaded only when every
      repository is ready. */
  function InitResult(w: Worker, fs: Node, root: Path, inp: InitInputs): (r: (Json, Worker))
    ensures Valid(r.0) && r.0.Obj?
    ensures MissingRepos(fs, root) == [] ==> r == Initialize(w, inp)
  {
    if MissingRepos(fs, root) == [] then Initialize(w, inp)
    else
      TypedErrorValid(ModelsMissingMessage, "models_not_downloaded");
      (TypedError(ModelsMissingMessage, "models_not_downloaded"), w)
  }

  lemma TypedErrorValid(text: string, kind: string)
    ensures Valid(TypedError(text, kind)) && TypedError(text, kind).Obj?
  {
    var ms := TypedError(text, kind).members;
    assert forall i :: 0 <= i < |ms| ==> ms[i].value == Bool(false) || ms[i].value.Str?;
  }

  /** The init result reports success exactly when every repository is ready and every
      model loaded. */
  lemma InitResultSuccess(w: Worker, fs: Node, root: Path, inp: InitInputs)
    ensures var r := InitResult(w, fs, root, inp);
      Get(r.0, "success") == Some(Bool(MissingRepos(fs, root) == [] && r.1.initialized))
  {
    if MissingRepos(fs, root) != [] {
      TypedErrorType(ModelsMissingMessage, "models_not_downloaded");
    }
  }

  // ---------------------------------------------------------------------------
  // Transcribing

  /** What the recogniser does with an existing audio file: text, optionally followed by
      punctuated text (absent when punctuation fails), or an error. */
  datatype Recognition =
    | Heard(raw: string, punctuated: Option<string>)
      /** The recogniser returned an empty list: the text is `[]`, the count grows, and
          reading the first result's confidence then raises. */
    | HeardNothing
    | Crashed(message: string)

  /** The outside world one command sees. */
  datatype Env = Env(
    init: InitInputs,
    audioExists: bool,
    recognition: Recognition,
    duration: Json,
    installed: bool,
    version: string,
    /** The message of an error raised inside the handler, and its traceback. */
    failure: string,
    traceback: string)

  const DefaultOptions: seq<Member> := [
    Member("batch_size_s", Int(60)),
    Member("hotword", Str("")),
    Member("use_vad", Bool(true)),
    Member("use_punc", Bool(true)),
    Member("language", Str("zh"))]

  /** `dict.update`: a key already present takes the new value in place; a new key is
      appended. */
  function Update(base: seq<Member>, extra: seq<Member>): (r: seq<Member>)
    decreases |extra|
  {
    if extra == [] then base else Update(Put(base, extra[0]), extra[1..])
  }

  function Put(base: seq<Member>, m: Member): (r: seq<Member>)
    ensures Lookup(r, m.key) == Some(m.value)
    ensures forall k :: k != m.key ==> Lookup(r, k) == Lookup(base, k)
  {
    match LastIndex(base, m.key)
    case Some(i) => PutAt(base, i, m)
    case None => PutEnd(base, m)
  }

  function PutAt(base: seq<Member>, i: nat, m: Member): (r: seq<Member>)
    requires i < |base| && base[i].key == m.key
    requires forall j :: i < j < |base| ==> base[j].key != m.key
    ensures Lookup(r, m.key) == Some(m.value)
    ensures forall k :: k != m.key ==> Lookup(r, k) == Lookup(base, k)
  {
    var r := base[i := m];
    assert LastIndex(r, m.key) == Some(i) by { LastIndexAt(r, i, m.key); }
    forall k | k != m.key ensures Lookup(r, k) == Lookup(base, k) {
      SameKeysSameLookup(base, r, k, i);
    }
    r
  }

  function PutEnd(base: seq<Member>, m: Member): (r: seq<Member>)
    ensures Lookup(r, m.key) == Some(m.value)
    ensures forall k :: k != m.key ==> Lookup(r, k) == Lookup(base, k)
  {
    var r := base + [m];
    assert r[..|r| - 1] == base;
    r
  }

  lemma LastIndexAt(ms: seq<Member>, i: nat, key: string)
    requires i < |ms| && ms[i].key == key
    requires forall j :: i < j < |ms| ==> ms[j].key != key
    ensures LastIndex(ms, key) == Some(i)
  {
  }

  /** Changing the value at position `i` does not change any other key's value. */
  lemma {:induction false} SameKeysSameLookup(a: seq<Member>, b: seq<Member>, k: string, i: nat)
    requires |a| == |b| && i < |a| && a[i].key != k && b[i].key != k
    requires forall j :: 0 <= j < |a| && j != i ==> a[j] == b[j]
    ensures Lookup(a, k) == Lookup(b, k)
    decreases |a|
  {
    var n := |a| - 1;
    if n >= 0 && n != i && a[n].key != k {
      assert a[..n][i] == a[i] && b[..n][i] == b[i];
      SameKeysSameLookup(a[..n], b[..n], k, i);
    } else if n >= 0 && n == i {
      assert a[..n] == b[..n];
    }
  }

  /** The options a transcription runs with: each key the caller gives overrides the
      default, every other default stays. */
  lemma {:induction false} UpdateOverrides(base: seq<Member>, extra: seq<Member>, k: string)
    ensures Lookup(Update(base, extra), k) == (if Lookup(extra, k).Some? then Lookup(extra, k) else Lookup(base, k))
    decreases |extra|
  {
    if extra != [] {
      UpdateOverrides(Put(base, extra[0]), extra[1..], k);
      LookupCons(extra, k);
    }
  }

  /** The value of `k` in `[m] + rest` is the one in `rest`, else `m`'s. */
  lemma {:induction false} LookupCons(ms: seq<Member>, k: string)
    requires ms != []
    ensures Lookup(ms, k) == (if Lookup(ms[1..], k).Some? then Lookup(ms[1..], k)
                              else if ms[0].key == k then Some(ms[0].value) else None)
    decreases |ms|
  {
    var n := |ms| - 1;
    if n > 0 {
      if ms[n].key != k {
        assert ms[..n][1..] == ms[1..][..n - 1];
        LookupCons(ms[..n], k);
      }
    }
  }

  const MissingAudioPrefix: string := "音频文件不存在: "
  const TranscribeFailedPrefix: string := "音频转录失败: "
  /** Python's message for indexing an empty list. */
  const EmptyIndexMessage: string := "list index out of range"

  function TranscriptionError(message: string): Json {
    TypedError(TranscribeFailedPrefix + message, "transcription_error")
  }

  /** The keys of a decoded JSON object in Python's dictionary order: each key once, where
      it first appears. */
  function KeyOrder(ms: seq<Member>): (ks: seq<string>)
    ensures forall k :: k in ks <==> Lookup(ms, k).Some?
    ensures forall i, j :: 0 <= i < j < |ks| ==> ks[i] != ks[j]
  {
    if ms == [] then []
    else
      var ks := KeyOrder(ms[..|ms| - 1]);
      if ms[|ms| - 1].key in ks then ks else ks + [ms[|ms| - 1].key]
  }

  /** What `dict.update` makes of one element of a list argument: a key/value pair under
      a string key, a pair under a key no option name equals (None, a boolean or a
      number), or something that is not a pair and makes the update raise.  A two-letter
      string and a two-key dictionary iterate as pairs too. */
  datatype PairItem = Keyed(m: Member) | Unkeyed | NotAPair

  function PairOf(e: Json): (p: PairItem)
    ensures p.Keyed? && e.Arr? ==> |e.items| == 2 && e.items[0] == Str(p.m.key) && p.m.value == e.items[1]
  {
    match e
    case Arr(xs) =>
      if |xs| != 2 then NotAPair
      else (match xs[0]
            case Str(k) => Keyed(Member(k, xs[1]))
            case Arr(_) => NotAPair
            case Obj(_) => NotAPair
            case _ => Unkeyed)
    case Str(s) => if |s| == 2 then Keyed(Member([s[0]], Str([s[1]]))) else NotAPair
    case Obj(ms) =>
      var ks := KeyOrder(ms);
      if |ks| == 2 then Keyed(Member(ks[0], Str(ks[1]))) else NotAPair
    case _ => NotAPair
  }

  /** The string-keyed pairs of a list given to `dict.update`, in order, unless some
      element is not a pair. */
  function Pairs(xs: seq<Json>): (r: Option<seq<Member>>)
    ensures r.Some? <==> forall i :: 0 <= i < |xs| ==> !PairOf(xs[i]).NotAPair?
    ensures r.Some? ==> forall m :: m in r.value <==> exists i :: 0 <= i < |xs| && PairOf(xs[i]) == Keyed(m)
  {
    if xs == [] then Some([])
    else
      match Pairs(xs[1..])
      case None => None
      case Some(rest) =>
        match PairOf(xs[0])
        case NotAPair => None
        case Unkeyed => Some(rest)
        case Keyed(m) => Some([m] + rest)
  }

  /** The options a transcription runs with: the caller's keys merged over the defaults.
      Falsy options leave the defaults; a dictionary, or a list of pairs, overrides them
      key by key; anything else makes the merge raise. */
  function EffectiveOptions(options: Json): (r: Option<seq<Member>>)
    ensures !PyTruthy(options) ==> r == Some(DefaultOptions)
    ensures PyTruthy(options) && options.Obj? ==> r == Some(Update(DefaultOptions, options.members))
    ensures PyTruthy(options) && options.Arr? ==>
      (r.Some? <==> forall i :: 0 <= i < |options.items| ==> !PairOf(options.items[i]).NotAPair?)
    ensures PyTruthy(options) && options.Arr? && r.Some? ==>
      r == Some(Update(DefaultOptions, Pairs(options.items).value))
    ensures PyTruthy(options) && !options.Obj? && !options.Arr? ==> r.None?
  {
    if !PyTruthy(options) then Some(DefaultOptions)
    else if options.Obj? then Some(Update(DefaultOptions, options.members))
    else if options.Arr? then
      match Pairs(options.items)
      case Some(ms) => Some(Update(DefaultOptions, ms))
      case None => None
    else None
  }

  function ModelsJson(m: Models): Json {
    Obj([Member("asr", Bool(m.asr)), Member("vad", Bool(m.vad)), Member("punc", Bool(m.punc))])
  }

  /** The text after punctuation: the punctuated text when punctuation is on, the model
      is loaded, the raw text is not blank and punctuation did not fail. */
  function FinalText(opts: seq<Member>, punc: bool, raw: string, punctuated: Option<string>): string {
    var usePunc := match Lookup(opts, "use_punc") case Some(v) => PyTruthy(v) case None => false;
    if usePunc && punc && PyStrip(raw) != [] && punctuated.Some? then punctuated.value else raw
  }

  function Transcribed(finalText: string, raw: string, duration: Json): Json {
    Obj([Member("success", Bool(true)), Member("text", Str(finalText)), Member("raw_text", Str(raw)),
         Member("confidence", Num(false, 0, "0")), Member("duration", duration),
         Member("language", Str("zh-CN")), Member("model_type", Str("pytorch"))])
  }

  /** `transcribe_audio`: initialise first if needed, then check the file, merge the
      options and recognise.  The count grows exactly when the recogniser returns. */
  function Transcribe(w: Worker, audioPath: Option<Json>, options: Json, env: Env): (r: (Json, Worker))
    ensures r.0.Obj?
    ensures Valid(env.duration) ==> Valid(r.0)
    ensures r.1.transcriptions == w.transcriptions + (if r.1.initialized && Returned(audioPath, options, env) then 1 else 0)
    ensures !r.1.initialized ==> r == Initialize(w, env.init)
  {
    var (initReply, w1) := if w.initialized then (Null, w) else Initialize(w, env.init);
    if !w1.initialized then (initReply, w1)
    else (TranscribeReply(w1, audioPath, options, env), Counted(w1, audioPath, options, env))
  }

  /** Whether Python's `os.path.exists` answers for a decoded `audio_path` rather than
      raising: a string is a path, and an integer or a bool (Python's bools are
      integers) is a file descriptor. `None`, a number with a fraction, a list and a
      dictionary raise TypeError. */
  predicate PathChecked(path: Json) {
    path.Str? || path.Bool? || (path.Num? && path.frac == [])
  }

  /** Whether an initialised worker's transcription reaches the recogniser and the
      recogniser returns. */
  predicate Returned(audioPath: Option<Json>, options: Json, env: Env) {
    audioPath.Some? && PathChecked(audioPath.value) && env.audioExists
    && EffectiveOptions(options).Some? && !env.recognition.Crashed?
  }

  /** Whether it returns a non-empty result. */
  predicate Recognised(audioPath: Option<Json>, options: Json, env: Env) {
    Returned(audioPath, options, env) && env.recognition.Heard?
  }

  /** The worker after an initialised worker's transcription: one more once the
      recogniser returns, even when the reply then fails. */
  function Counted(w: Worker, audioPath: Option<Json>, options: Json, env: Env): (r: Worker)
    ensures r == w.(transcriptions := r.transcriptions)
    ensures r.transcriptions == w.transcriptions + (if Returned(audioPath, options, env) then 1 else 0)
  {
    if Returned(audioPath, options, env) then w.(transcriptions := w.transcriptions + 1) else w
  }

  /** The reply of an initialised worker's transcription. */
  function TranscribeReply(w: Worker, audioPath: Option<Json>, options: Json, env: Env): (r: Json)
    ensures r.Obj?
    ensures Valid(env.duration) ==> Valid(r)
  {
    if audioPath.None? || !PathChecked(audioPath.value) then
      TypedErrorValid(TranscribeFailedPrefix + env.failure, "transcription_error");
      TranscriptionError(env.failure)
    else if !env.audioExists then
      ReplyValid(false, "error", MissingAudioPrefix + PyStr(audioPath));
      Reply(false, "error", MissingAudioPrefix + PyStr(audioPath))
    else
      match EffectiveOptions(options)
      case None =>
        TypedErrorValid(TranscribeFailedPrefix + env.failure, "transcription_error");
        TranscriptionError(env.failure)
      case Some(opts) =>
        match env.recognition
        case Crashed(m) =>
          TypedErrorValid(TranscribeFailedPrefix + m, "transcription_error");
          TranscriptionError(m)
        case HeardNothing =>
          TypedErrorValid(TranscribeFailedPrefix + EmptyIndexMessage, "transcription_error");
          TranscriptionError(EmptyIndexMessage)
        case Heard(raw, punctuated) =>
          var text := FinalText(opts, w.models.punc, raw, punctuated);
          TranscribedValid(text, raw, env.duration);
          Transcribed(text, raw, env.duration)
  }

  lemma TranscribedValid(text: string, raw: string, duration: Json)
    ensures Transcribed(text, raw, duration).Obj?
    ensures Valid(duration) ==> Valid(Transcribed(text, raw, duration))
  {
    var ms := Transcribed(text, raw, duration).members;
    assert ms[3].value == Num(false, 0, "0");
    assert forall i :: 0 <= i < |ms| && i != 3 && i != 4 ==> ms[i].value.Str? || ms[i].value.Bool?;
  }

  // ---------------------------------------------------------------------------
  // The command loop

  const InvalidJsonMessage: string := "无效的JSON命令"
  const UnknownPrefix: string := "未知命令: "

  /** Python's name for the type of a decoded JSON value. */
  function PyTypeName(v: Json): string {
    match v
    case Null => "NoneType"
    case Bool(_) => "bool"
    case Num(_, _, f) => if f == [] then "int" else "float"
    case Str(_) => "str"
    case Arr(_) => "list"
    case Obj(_) => "dict"
  }

  /** How `repr` writes one character of a string quoted with `quote`: the backslash, the
      quote and the control characters are escaped. */
  function PyEscapeChar(c: char, quote: char): string {
    if c == '\\' then "\\\\"
    else if c == quote then ['\\', c]
    else if c == '\n' then "\\n"
    else if c == '\r' then "\\r"
    else if c == '\t' then "\\t"
    else if (c as int) < 0x20 || c as int == 0x7f then
      "\\x" + [HexDigitChar(c as int / 16), HexDigitChar(c as int % 16)]
    else [c]
  }

  function PyEscape(s: string, quote: char): string {
    if s == [] then [] else PyEscapeChar(s[0], quote) + PyEscape(s[1..], quote)
  }

  /** `repr` of a string: in single quotes, unless it holds a single quote and no double
      quote. */
  function PyQuote(s: string): string {
    var q := if '\'' in s && '"' !in s then '"' else '\'';
    [q] + PyEscape(s, q) + [q]
  }

  /** `repr` of a decoded number: an integer loses the sign of zero; a float keeps it
      and keeps one fraction digit at least. */
  function PyNumber(neg: bool, whole: nat, frac: string): string {
    if frac == [] then (if neg && whole != 0 then "-" else "") + NatToString(whole)
    else
      var f := DropTrailing(frac, IsZeroDigit);
      (if neg then "-" else "") + NatToString(whole) + "." + (if f == [] then "0" else f)
  }

  /** Where the entries of a decoded dictionary sit: one per key, in first-appearance
      order, at the key's last occurrence. */
  function DictIndices(ms: seq<Member>, ks: seq<string>): (ix: seq<nat>)
    requires forall k :: k in ks ==> Lookup(ms, k).Some?
    ensures |ix| == |ks|
    ensures forall i :: 0 <= i < |ix| ==>
      ix[i] < |ms| && ms[ix[i]].key == ks[i] && Lookup(ms, ks[i]) == Some(ms[ix[i]].value)
  {
    if ks == [] then []
    else
      assert ks[0] in ks;
      var rest := DictIndices(ms, ks[1..]);
      assert forall i :: 1 <= i < |ks| ==> ks[1..][i - 1] == ks[i];
      [KeyIndex(ms, ks[0])] + rest
  }

  /** The position of a present key's last occurrence. */
  function KeyIndex(ms: seq<Member>, k: string): (i: nat)
    requires Lookup(ms, k).Some?
    ensures i < |ms| && ms[i].key == k && Lookup(ms, k) == Some(ms[i].value)
  {
    match LastIndex(ms, k)
    case Some(i) => i
  }

  /** Python's `repr` of a decoded JSON value. */
  function PyRepr(v: Json): string {
    match v
    case Null => "None"
    case Bool(b) => if b then "True" else "False"
    case Num(neg, whole, frac) => PyNumber(neg, whole, frac)
    case Str(s) => PyQuote(s)
    case Arr(items) => "[" + PyReprItems(items) + "]"
    case Obj(ms) => "{" + PyReprEntries(ms, DictIndices(ms, KeyOrder(ms))) + "}"
  }

  function PyReprItems(items: seq<Json>): string {
    if items == [] then ""
    else PyRepr(items[0]) + (if |items| == 1 then "" else ", " + PyReprItems(items[1..]))
  }

  function PyReprEntries(ms: seq<Member>, ix: seq<nat>): string
    requires forall i :: 0 <= i < |ix| ==> ix[i] < |ms|
    decreases ms, |ix|
  {
    if ix == [] then ""
    else PyQuote(ms[ix[0]].key) + ": " + PyRepr(ms[ix[0]].value)
         + (if |ix| == 1 then "" else ", " + PyReprEntries(ms, ix[1..]))
  }

  /** `str()` of an action: a string is itself, an absent one prints as `None`, and any
      other value as its `repr`. */
  function PyStr(v: Option<Json>): (r: string)
    ensures v.Some? && v.value.Str? ==> r == v.value.s
    ensures v.None? ==> r == "None"
    ensures v.Some? && v.value.Arr? ==> |r| >= 2 && r[0] == '[' && r[|r| - 1] == ']'
    ensures v.Some? && v.value.Obj? ==> |r| >= 2 && r[0] == '{' && r[|r| - 1] == '}'
  {
    match v
    case None => "None"
    case Some(Str(s)) => s
    case Some(x) => PyRepr(x)
  }

  function StatusReply(w: Worker, env: Env): Json {
    if env.installed then
      Obj([Member("success", Bool(true)), Member("installed", Bool(true)),
           Member("initialized", Bool(w.initialized)), Member("version", Str(env.version)),
           Member("models", ModelsJson(w.models))])
    else
      Obj([Member("success", Bool(false)), Member("installed", Bool(false)),
           Member("initialized", Bool(false)), Member("error", Str("FunASR未安装"))])
  }

  function StatsReply(w: Worker): Json {
    Obj([Member("success", Bool(true)),
         Member("stats", Obj([Member("transcription_count", Int(w.transcriptions)),
                              Member("initialized", Bool(w.initialized)),
                              Member("models_loaded", ModelsJson(w.models))]))])
  }

  /** The error `command.get` raises on a command that is not a dictionary. */
  function NotADict(v: Json, traceback: string): (r: Json)
    ensures r.Obj? && Valid(r)
  {
    Obj([Member("success", Bool(false)),
         Member("error", Str("'" + PyTypeName(v) + "' object has no attribute 'get'")),
         Member("traceback", Str(traceback))])
  }

  /** The reply to one command line, the worker afterwards, and whether the loop stops. */
  datatype Handled = Handled(out: seq<Json>, w: Worker, stop: bool)

  /** The command a non-blank line carries, when it is a JSON object. */
  function CommandOf(line: string): Option<Json> {
    var t := PyStrip(line);
    if t == [] then None
    else match Parse(t)
      case Some(v) => if v.Obj? then Some(v) else None
      case None => None
  }

  /** One line of standard input: blank lines are skipped, every other line gets exactly
      one reply, and only an `exit` command stops the loop. */
  function HandleLine(w: Worker, line: string, env: Env): (h: Handled)
    ensures |h.out| == (if PyStrip(line) == [] then 0 else 1)
    ensures CommandOf(line).Some? ==> h == Dispatch(w, CommandOf(line).value, env)
    ensures CommandOf(line).None? ==> h.w == w && !h.stop
  {
    var t := PyStrip(line);
    if t == [] then Handled([], w, false)
    else if CommandOf(line).Some? then Dispatch(w, CommandOf(line).value, env)
    else match Parse(t)
      case None => Handled([Reply(false, "error", InvalidJsonMessage)], w, false)
      case Some(v) =>
        // `command.get` raises on a value that is not a dictionary; the loop reports it
        Handled([NotADict(v, env.traceback)], w, false)
  }

  function Dispatch(w: Worker, command: Json, env: Env): (h: Handled)
    requires command.Obj?
    ensures |h.out| == 1 && h.out[0].Obj?
    ensures h.stop <==> Get(command, "action") == Some(Str("exit"))
    ensures h.w != w ==> Get(command, "action") == Some(Str("transcribe"))
  {
    var action := Get(command, "action");
    if action == Some(Str("transcribe")) then
      var options := match Get(command, "options") case Some(o) => o case None => Obj([]);
      var (reply, w1) := Transcribe(w, Get(command, "audio_path"), options, env);
      Handled([reply], w1, false)
    else if action == Some(Str("status")) then Handled([StatusReply(w, env)], w, false)
    else if action == Some(Str("stats")) then Handled([StatsReply(w)], w, false)
    else if action == Some(Str("cleanup")) then Handled([Reply(true, "message", "内存清理完成")], w, false)
    else if action == Some(Str("exit")) then Handled([Reply(true, "message", "服务器退出")], w, true)
    else Handled([Reply(false, "error", UnknownPrefix + PyStr(action))], w, false)
  }

  /** The replies to a sequence of input lines, up to end of input or an `exit`. */
  datatype Session = Session(out: seq<Json>, w: Worker, consumed: nat, exited: bool)

  function Serve(w: Worker, inputs: seq<(string, Env)>): (s: Session)
    ensures s.consumed <= |inputs|
    ensures !s.exited ==> s.consumed == |inputs|
  {
    ServeWith(HandleLine, w, inputs)
  }

  /** The loop, for any line handler. */
  function ServeWith(step: (Worker, string, Env) -> Handled, w: Worker, inputs: seq<(string, Env)>): (s: Session)
    ensures s.consumed <= |inputs|
    ensures !s.exited ==> s.consumed == |inputs|
    decreases |inputs|
  {
    if inputs == [] then Session([], w, 0, false)
    else
      var h := step(w, inputs[0].0, inputs[0].1);
      if h.stop then Session(h.out, h.w, 1, true)
      else
        var rest := ServeWith(step, h.w, inputs[1..]);
        Session(h.out + rest.out, rest.w, rest.consumed + 1, rest.exited)
  }

  /** A line handler that skips blank lines, answers every other line once and stops
      exactly on `exit`. */
  ghost predicate Disciplined(step: (Worker, string, Env) -> Handled) {
    forall w: Worker, line: string, env: Env ::
      && |step(w, line, env).out| == (if PyStrip(line) == [] then 0 else 1)
      && (step(w, line, env).stop <==> IsExit(line))
  }

  /** The number of non-blank lines among `inputs`. */
  function NonBlank(inputs: seq<(string, Env)>): nat {
    if inputs == [] then 0
    else (if PyStrip(inputs[0].0) == [] then 0 else 1) + NonBlank(inputs[1..])
  }

  /** Everything the worker prints: the sentinel, the init result, then one line per
      non-blank command line. */
  function Output(fs: Node, root: Path, init: InitInputs, inputs: seq<(string, Env)>): (lines: seq<string>)
  {
    var (initReply, w) := InitResult(Started, fs, root, init);
    [Sentinel, Serialize(initReply, Spaced)] + Texts(Serve(w, inputs).out)
  }

  function Texts(vs: seq<Json>): (ts: seq<string>)
    ensures |ts| == |vs| && forall i :: 0 <= i < |vs| ==> ts[i] == Serialize(vs[i], Spaced)
  {
    if vs == [] then [] else [Serialize(vs[0], Spaced)] + Texts(vs[1..])
  }

  // ---------------------------------------------------------------------------
  // Properties

  /** Before answering anything the worker prints exactly the sentinel and its init
      result. */
  lemma StartsWithHandshake(fs: Node, root: Path, init: InitInputs, inputs: seq<(string, Env)>)
    ensures var out := Output(fs, root, init, inputs);
      |out| >= 2 && out[0] == Sentinel
      && out[1] == Serialize(InitResult(Started, fs, root, init).0, Spaced)
  {
  }

  /** The init result says the models are not downloaded exactly when some repository is
      not ready. */
  lemma NotDownloadedIffRepoMissing(w: Worker, fs: Node, root: Path, init: InitInputs)
    ensures Get(InitResult(w, fs, root, init).0, "type") == Some(Str("models_not_downloaded"))
            <==> exists a: Asset :: !RepoReady(fs, root + [Assets.RepoName(a)])
  {
    var m := MissingRepos(fs, root);
    var v := InitResult(w, fs, root, init).0;
    if m == [] {
      TypeNeverNotDownloaded(w, init);
      forall a: Asset ensures RepoReady(fs, root + [Assets.RepoName(a)]) {
        assert Assets.RepoName(a) !in m;
      }
    } else {
      assert m[0] in m;
      var a: Asset :| Assets.RepoName(a) == m[0] by {
        assert m[0] == Assets.RepoName(Assets.Asr) || m[0] == Assets.RepoName(Assets.Vad)
            || m[0] == Assets.RepoName(Assets.Punc) by {
          assert m[0] in NotReady(fs, root, [Assets.RepoName(Assets.Asr), Assets.RepoName(Assets.Vad),
                                              Assets.RepoName(Assets.Punc)]);
        }
      }
      TypedErrorType(ModelsMissingMessage, "models_not_downloaded");
    }
  }


  lemma TypeNeverNotDownloaded(w: Worker, init: InitInputs)
    ensures Get(Initialize(w, init).0, "type") != Some(Str("models_not_downloaded"))
  {
    var v := Initialize(w, init).0;
    if Get(v, "type").Some? {
      var l := init.loads;
      if !w.initialized && AnyStillRunning(l) {
        TypedErrorType(LoadTimeoutMessage, "timeout_error");
      } else if !w.initialized && FailedLoads(l, init.order) != [] {
        TypedErrorType(LoadFailedPrefix + Join(Assets.AssetNames(FailedLoads(l, init.order)), ", "), "init_error");
      }
    }
  }

  /** A ready repository is one the supervisor would also find complete: a complete
      model file lies in a directory that holds `model.pt`. */
  lemma CompleteMeansReady(fs: Node, root: Path, a: Asset)
    requires Assets.Complete(fs, root, a)
    ensures RepoReady(fs, root + [Assets.RepoName(a)])
  {
    ModelFileMeansReady(fs, root, Assets.RepoName(a), Assets.ModelFile(root, a));
  }

  lemma ModelFileMeansReady(fs: Node, root: Path, name: string, file: Path)
    requires file == root + [name, "model.pt"] && Assets.At(fs, file).Some?
    ensures RepoReady(fs, root + [name])
  {
    var dir := root + [name];
    assert file == dir + ["model.pt"];
    AtAppend(fs, dir, ["model.pt"]);
    var n := Assets.At(fs, dir).value;
    AtSingle(n, "model.pt");
    ModelPtMatches(n.entries);
  }

  lemma AtSingle(n: Node, name: string)
    requires Assets.At(n, [name]).Some?
    ensures n.Dir? && Assets.Child(n.entries, name).Some?
  {
    assert [name][1..] == [];
  }

  lemma ModelPtMatches(es: seq<Assets.Entry>)
    requires Assets.Child(es, "model.pt").Some?
    ensures exists i :: 0 <= i < |es| && MatchesWeightPattern(es[i].name)
  {
    var i :| 0 <= i < |es| && es[i].name == "model.pt";
    assert MatchesWeightPattern(es[i].name);
  }

  lemma {:induction false} AtAppend(n: Node, p: Path, q: Path)
    ensures Assets.At(n, p + q) == (match Assets.At(n, p) case Some(m) => Assets.At(m, q) case None => None)
    decreases |p|
  {
    if p != [] {
      assert (p + q)[0] == p[0] && (p + q)[1..] == p[1..] + q;
      match n
      case File(_) =>
      case Dir(es) =>
        match Assets.Child(es, p[0])
        case None =>
        case Some(c) => AtAppend(c, p[1..], q);
    } else {
      assert p + q == q;
    }
  }

  /** An explicit root wins over the environment and the default. */
  lemma ExplicitRootWins(fs: Node, arg: Path, env: Option<Path>, cache: Option<Path>, home: Path)
    requires arg != []
    ensures ModelRoot(fs, Some(arg), env, cache, home) == arg
  {
  }

  /** Once initialised, initialising again changes nothing and reports it. */
  lemma InitializeIdempotent(w: Worker, a: InitInputs, b: InitInputs)
    requires Initialize(w, a).1.initialized
    ensures var w1 := Initialize(w, a).1;
      Initialize(w1, b) == (Reply(true, "message", AlreadyInitMessage), w1)
  {
  }

  /** Without a stuck loader, a failed initialisation names exactly the failed models, in
      the order their results were recorded. */
  lemma InitFailureNamesFailedModels(w: Worker, inp: InitInputs)
    requires !w.initialized && !AnyStillRunning(inp.loads)
    requires FailedLoads(inp.loads, inp.order) != []
    ensures Get(Initialize(w, inp).0, "error") ==
      Some(Str(LoadFailedPrefix + Join(Assets.AssetNames(FailedLoads(inp.loads, inp.order)), ", ")))
    ensures Get(Initialize(w, inp).0, "success") == Some(Bool(false))
  {
    var text := LoadFailedPrefix + Join(Assets.AssetNames(FailedLoads(inp.loads, inp.order)), ", ");
    TypedErrorType(text, "init_error");
  }

  /** The caller's options override the defaults key by key. */
  lemma OptionsOverride(options: seq<Member>, k: string)
    requires Obj(options) != Obj([])
    ensures var opts := EffectiveOptions(Obj(options)).value;
      Lookup(opts, k) == (if Lookup(options, k).Some? then Lookup(options, k) else Lookup(DefaultOptions, k))
  {
    UpdateOverrides(DefaultOptions, options, k);
  }

  /** A list of key/value pairs overrides the defaults as a dictionary would:
      `[["use_vad", false]]` turns voice activity detection off and keeps every other
      default. */
  lemma PairListOverrides(xs: seq<Json>, k: string)
    requires PyTruthy(Arr(xs)) && forall i :: 0 <= i < |xs| ==> !PairOf(xs[i]).NotAPair?
    ensures var opts := EffectiveOptions(Arr(xs));
      && opts.Some?
      && Lookup(opts.value, k) == (if Lookup(Pairs(xs).value, k).Some? then Lookup(Pairs(xs).value, k)
                                   else Lookup(DefaultOptions, k))
  {
    UpdateOverrides(DefaultOptions, Pairs(xs).value, k);
  }

  lemma SinglePairOverrides(key: string, v: Json, k: string)
    ensures var opts := EffectiveOptions(Arr([Arr([Str(key), v])]));
      && opts.Some?
      && Lookup(opts.value, k) == (if k == key then Some(v) else Lookup(DefaultOptions, k))
  {
    var xs := [Arr([Str(key), v])];
    assert Pairs(xs[1..]) == Some([]);
    PairListOverrides(xs, k);
  }

  /** A character `repr` writes as itself inside a string quoted with `quote`. */
  predicate PyPlain(c: char, quote: char) {
    c != '\\' && c != quote && c as int >= 0x20 && c as int != 0x7f
  }

  lemma {:induction false} PyEscapePlain(s: string, quote: char)
    requires forall i :: 0 <= i < |s| ==> PyPlain(s[i], quote)
    ensures PyEscape(s, quote) == s
  {
    if s != [] {
      PyEscapePlain(s[1..], quote);
      assert s == [s[0]] + s[1..];
    }
  }

  /** A string of plain characters prints between single quotes, and one that also
      holds a single quote but no double quote prints between double quotes. */
  lemma PyQuotePlain(s: string)
    requires forall i :: 0 <= i < |s| ==> PyPlain(s[i], '"') && s[i] != '\''
    ensures PyQuote(s) == "'" + s + "'"
  {
    forall i | 0 <= i < |s| ensures PyPlain(s[i], '\'') {}
    PyEscapePlain(s, '\'');
  }

  lemma PyQuoteApostrophe(s: string)
    requires '\'' in s
    requires forall i :: 0 <= i < |s| ==> PyPlain(s[i], '"')
    ensures PyQuote(s) == "\"" + s + "\""
  {
    PyEscapePlain(s, '"');
  }

  /** Python prints a list action as `[1, 'a']`. */
  lemma PyStrList()
    ensures PyStr(Some(Arr([Num(false, 1, ""), Str("a")]))) == "[1, 'a']"
  {
    PyQuotePlain("a");
    assert PyReprItems([Str("a")]) == "'a'";
  }

  lemma TranscribedSuccess(text: string, raw: string, duration: Json)
    ensures Succeeded(Transcribed(text, raw, duration))
    ensures Get(Transcribed(text, raw, duration), "text") == Some(Str(text))
  {
    LookupUnique(Transcribed(text, raw, duration).members, 0);
    LookupUnique(Transcribed(text, raw, duration).members, 1);
  }

  /** The transcription count grows by one on every successful transcription, and on
      the failed one whose recogniser returned an empty list; on no other reply. */
  lemma TranscribeCounts(w: Worker, audioPath: Option<Json>, options: Json, env: Env)
    ensures var r := Transcribe(w, audioPath, options, env);
      r.1.transcriptions == w.transcriptions
        + (if Succeeded(r.0) || (r.1.initialized && Returned(audioPath, options, env)) then 1 else 0)
    ensures var r := Transcribe(w, audioPath, options, env);
      r.1.transcriptions == w.transcriptions + 1 && !Succeeded(r.0) ==>
        env.recognition.HeardNothing? && r.0 == TranscriptionError(EmptyIndexMessage)
  {
    var w1 := if w.initialized then w else Initialize(w, env.init).1;
    if w1.initialized {
      ReplySucceedsWhenRecognised(w1, audioPath, options, env);
    }
  }

  /** An initialised worker's transcription reply reports success exactly when the
      recogniser heard something. */
  lemma ReplySucceedsWhenRecognised(w: Worker, audioPath: Option<Json>, options: Json, env: Env)
    ensures Succeeded(TranscribeReply(w, audioPath, options, env)) <==> Recognised(audioPath, options, env)
  {
    if audioPath.None? || !PathChecked(audioPath.value) {
      TypedErrorType(TranscribeFailedPrefix + env.failure, "transcription_error");
    } else if !env.audioExists {
      ReplySuccess(false, "error", MissingAudioPrefix + PyStr(audioPath));
    } else {
      match EffectiveOptions(options)
      case None =>
        TypedErrorType(TranscribeFailedPrefix + env.failure, "transcription_error");
      case Some(opts) =>
        match env.recognition
        case Crashed(m) =>
          TypedErrorType(TranscribeFailedPrefix + m, "transcription_error");
        case HeardNothing =>
          TypedErrorType(TranscribeFailedPrefix + EmptyIndexMessage, "transcription_error");
        case Heard(raw, punctuated) =>
          TranscribedSuccess(FinalText(opts, w.models.punc, raw, punctuated), raw, env.duration);
    }
  }

  /** An initialised worker asked for a missing file, or a closed file descriptor, reports
      the path as Python prints it and counts nothing; a path the existence check cannot
      take is a transcription error; an uninitialised worker whose models fail to load
      returns that failure. */
  lemma TranscribeErrors(w: Worker, audioPath: Option<Json>, options: Json, env: Env)
    ensures w.initialized && audioPath.Some? && PathChecked(audioPath.value) && !env.audioExists ==>
      Transcribe(w, audioPath, options, env) == (Reply(false, "error", MissingAudioPrefix + PyStr(audioPath)), w)
    ensures w.initialized && audioPath.Some? && audioPath.value.Str? && !env.audioExists ==>
      Transcribe(w, audioPath, options, env).0 == Reply(false, "error", MissingAudioPrefix + audioPath.value.s)
    ensures w.initialized && (audioPath.None? || !PathChecked(audioPath.value)) ==>
      Transcribe(w, audioPath, options, env) == (TranscriptionError(env.failure), w)
    ensures !w.initialized && !Initialize(w, env.init).1.initialized ==>
      Transcribe(w, audioPath, options, env) == Initialize(w, env.init)
  {
  }

  /** `"audio_path": 7` names file descriptor 7: when it is closed the reply is the
      missing-file error naming `7`, and `true` (descriptor 1) is named `True`. */
  lemma DescriptorPathMissing(w: Worker, options: Json, env: Env)
    requires w.initialized && !env.audioExists
    ensures Transcribe(w, Some(Num(false, 7, "")), options, env).0 == Reply(false, "error", MissingAudioPrefix + "7")
    ensures Transcribe(w, Some(Bool(true)), options, env).0 == Reply(false, "error", MissingAudioPrefix + "True")
    ensures Transcribe(w, Some(Num(false, 7, "0")), options, env).0 == TranscriptionError(env.failure)
  {
    TranscribeErrors(w, Some(Num(false, 7, "")), options, env);
    TranscribeErrors(w, Some(Bool(true)), options, env);
    TranscribeErrors(w, Some(Num(false, 7, "0")), options, env);
    assert DigitChar(7) == '7';
    assert NatToString(7) == "7";
    assert PyStr(Some(Num(false, 7, ""))) == "7";
  }

  /** Punctuation replaces the text only when it is asked for, the model is loaded, the
      text is not blank and punctuation produced something. */
  lemma PunctuationApplies(w: Worker, path: string, options: Json, env: Env)
    requires w.initialized && env.audioExists && env.recognition.Heard?
    requires EffectiveOptions(options).Some?
    ensures var r := Transcribe(w, Some(Str(path)), options, env);
      var usePunc := Lookup(EffectiveOptions(options).value, "use_punc");
      var raw := env.recognition.raw;
      Get(r.0, "text") == Some(Str(
        if usePunc.Some? && PyTruthy(usePunc.value) && w.models.punc && PyStrip(raw) != []
           && env.recognition.punctuated.Some?
        then env.recognition.punctuated.value else raw))
  {
    var opts := EffectiveOptions(options).value;
    TranscribedSuccess(FinalText(opts, w.models.punc, env.recognition.raw, env.recognition.punctuated),
                       env.recognition.raw, env.duration);
  }

  /** A command object gets exactly one reply; only `exit` stops the loop, answering with
      the goodbye message; only `transcribe` can change the count. */
  lemma DispatchReplies(w: Worker, command: Json, env: Env)
    requires command.Obj?
    ensures var h := Dispatch(w, command, env);
      && |h.out| == 1
      && (h.stop <==> Get(command, "action") == Some(Str("exit")))
      && (Get(command, "action") == Some(Str("exit")) ==>
            h == Handled([Reply(true, "message", "服务器退出")], w, true))
      && (h.w.transcriptions != w.transcriptions ==> Get(command, "action") == Some(Str("transcribe")))
  {
  }

  /** One line: a blank line is skipped, every other line gets exactly one reply, a line
      that is not JSON is answered with the invalid-command error, and only an `exit`
      command stops the loop. */
  lemma LineReplies(w: Worker, line: string, env: Env)
    ensures var h := HandleLine(w, line, env);
      && (PyStrip(line) == [] ==> h == Handled([], w, false))
      && (PyStrip(line) != [] ==> |h.out| == 1)
      && (h.stop <==> IsExit(line))
      && (PyStrip(line) != [] && Parse(PyStrip(line)).None? ==>
            h == Handled([Reply(false, "error", InvalidJsonMessage)], w, false))
  {
    var t := PyStrip(line);
    if t != [] {
      match Parse(t)
      case None =>
      case Some(v) =>
        if v.Obj? {
          assert CommandOf(line) == Some(v);
          DispatchReplies(w, v, env);
        } else {
          assert CommandOf(line) == None;
        }
    }
  }

  lemma HandleLineDisciplined()
    ensures Disciplined(HandleLine)
  {
    forall w: Worker, line: string, env: Env
      ensures |HandleLine(w, line, env).out| == (if PyStrip(line) == [] then 0 else 1)
      ensures HandleLine(w, line, env).stop <==> IsExit(line)
    {
      LineReplies(w, line, env);
    }
  }

  /** Every reply is a JSON object the supervisor can read back, provided the measured
      duration is a number. */
  lemma RepliesValid(w: Worker, line: string, env: Env)
    requires Valid(env.duration)
    ensures ValidReplies(HandleLine(w, line, env).out)
  {
    match CommandOf(line)
    case Some(v) => CommandRepliesValid(w, line, env, v);
    case None => OtherRepliesValid(w, line, env);
  }

  lemma CommandRepliesValid(w: Worker, line: string, env: Env, v: Json)
    requires Valid(env.duration)
    ensures CommandOf(line) == Some(v) ==> ValidReplies(HandleLine(w, line, env).out)
  {
    if CommandOf(line) == Some(v) {
      HandleLineDispatches(w, line, env);
      DispatchValid(w, v, env);
      SingleReplyValid(Dispatch(w, v, env).out);
    }
  }

  lemma SingleReplyValid(out: seq<Json>)
    requires |out| == 1 && Valid(out[0]) && out[0].Obj?
    ensures ValidReplies(out)
  {
  }

  lemma OtherRepliesValid(w: Worker, line: string, env: Env)
    ensures CommandOf(line).None? ==> ValidReplies(HandleLine(w, line, env).out)
  {
    var t := PyStrip(line);
    var out := HandleLine(w, line, env).out;
    if CommandOf(line).None? && t != [] {
      match Parse(t)
      case None =>
        assert out == [Reply(false, "error", InvalidJsonMessage)];
        ReplyValid(false, "error", InvalidJsonMessage);
        SingleReplyValid(out);
      case Some(v) =>
        assert out == [NotADict(v, env.traceback)];
        SingleReplyValid(out);
    }
  }

  /** Every line of a reply is a JSON object the supervisor can read back. */
  predicate ValidReplies(out: seq<Json>) {
    forall i :: 0 <= i < |out| ==> Valid(out[i]) && out[i].Obj?
  }

  lemma ReplyValid(ok: bool, key: string, text: string)
    ensures Valid(Reply(ok, key, text)) && Reply(ok, key, text).Obj?
  {
    var ms := Reply(ok, key, text).members;
    assert forall i :: 0 <= i < |ms| ==> ms[i].value == Bool(ok) || ms[i].value == Str(text);
  }

  /** A line holding a JSON object is dispatched as that command. */
  lemma HandleLineDispatches(w: Worker, line: string, env: Env)
    ensures CommandOf(line).Some? ==> HandleLine(w, line, env) == Dispatch(w, CommandOf(line).value, env)
  {
  }

  lemma DispatchValid(w: Worker, command: Json, env: Env)
    requires command.Obj? && Valid(env.duration)
    ensures var h := Dispatch(w, command, env);
      |h.out| == 1 && Valid(h.out[0]) && h.out[0].Obj?
  {
    var action := Get(command, "action");
    var out := Dispatch(w, command, env).out;
    if action == Some(Str("transcribe")) {
    } else if action == Some(Str("status")) {
      assert out == [StatusReply(w, env)];
      StatusReplyValid(w, env);
    } else if action == Some(Str("stats")) {
      assert out == [StatsReply(w)];
      StatsReplyValid(w);
    } else if action == Some(Str("cleanup")) {
      assert out == [Reply(true, "message", "内存清理完成")];
      ReplyValid(true, "message", "内存清理完成");
    } else if action == Some(Str("exit")) {
      assert out == [Reply(true, "message", "服务器退出")];
      ReplyValid(true, "message", "服务器退出");
    } else {
      assert out == [Reply(false, "error", UnknownPrefix + PyStr(action))];
      ReplyValid(false, "error", UnknownPrefix + PyStr(action));
    }
  }

  lemma StatusReplyValid(w: Worker, env: Env)
    ensures Valid(StatusReply(w, env)) && StatusReply(w, env).Obj?
  {
    assert Valid(ModelsJson(w.models));
  }

  lemma StatsReplyValid(w: Worker)
    ensures Valid(StatsReply(w)) && StatsReply(w).Obj?
  {
    assert Valid(ModelsJson(w.models));
    assert Valid(StatsReply(w).members[1].value);
  }

  /** The line the supervisor writes for a command, read back: stripping removes only the
      newline, so the worker dispatches exactly the command that was sent. */
  lemma CommandLineDispatched(w: Worker, cmd: Json, env: Env)
    requires cmd.Obj? && Valid(cmd)
    ensures HandleLine(w, Serialize(cmd, Compact) + "\n", env) == Dispatch(w, cmd, env)
  {
    CommandLineStrips(cmd);
    ParseSerialize(cmd, Compact);
  }

  lemma CommandLineStrips(cmd: Json)
    requires cmd.Obj?
    ensures PyStrip(Serialize(cmd, Compact) + "\n") == Serialize(cmd, Compact)
  {
    var t := Serialize(cmd, Compact);
    var x := t + "\n";
    assert t[0] == '{' && t[|t| - 1] == '}';
    assert x[0] == '{';
    assert DropLeading(x, IsPySpace) == x;
    assert x[..|x| - 1] == t;
    assert DropTrailing(t, IsPySpace) == t;
    assert DropTrailing(x, IsPySpace) == t;
  }

  /** Every non-blank line before the loop stops gets exactly one reply. */
  lemma OneReplyPerLine(w: Worker, inputs: seq<(string, Env)>)
    ensures var s := Serve(w, inputs); |s.out| == NonBlank(inputs[..s.consumed])
  {
    HandleLineDisciplined();
    RepliesWith(HandleLine, w, inputs);
  }

  lemma {:induction false} RepliesWith(step: (Worker, string, Env) -> Handled, w: Worker, inputs: seq<(string, Env)>)
    requires Disciplined(step)
    ensures var s := ServeWith(step, w, inputs); |s.out| == NonBlank(inputs[..s.consumed])
    decreases |inputs|
  {
    if inputs == [] {
      assert inputs[..0] == [];
    } else {
      var h := step(w, inputs[0].0, inputs[0].1);
      if h.stop {
        NonBlankPrefix(inputs, 1);
      } else {
        var rest := ServeWith(step, h.w, inputs[1..]);
        RepliesWith(step, h.w, inputs[1..]);
        NonBlankPrefix(inputs, rest.consumed + 1);
      }
    }
  }

  lemma NonBlankPrefix(inputs: seq<(string, Env)>, n: nat)
    requires 0 < n <= |inputs|
    ensures NonBlank(inputs[..n]) ==
      (if PyStrip(inputs[0].0) == [] then 0 else 1) + NonBlank(inputs[1..][..n - 1])
  {
    assert inputs[..n][1..] == inputs[1..][..n - 1];
    assert inputs[..n][0] == inputs[0];
  }

  /** The loop stops exactly at the first `exit` command: the last line it consumed is
      one, and no line before it is. */
  lemma StopsAtFirstExit(w: Worker, inputs: seq<(string, Env)>)
    ensures var s := Serve(w, inputs);
      && (s.exited <==> exists i :: 0 <= i < |inputs| && IsExit(inputs[i].0))
      && (s.exited ==> IsExit(inputs[s.consumed - 1].0))
      && forall i :: 0 <= i < s.consumed - 1 ==> !IsExit(inputs[i].0)
  {
    HandleLineDisciplined();
    assert StopsOn(HandleLine, IsExit);
    StopsWith(HandleLine, IsExit, w, inputs);
  }

  lemma {:induction false} StopsWith(step: (Worker, string, Env) -> Handled, ex: string -> bool,
                                     w: Worker, inputs: seq<(string, Env)>)
    requires StopsOn(step, ex)
    ensures var s := ServeWith(step, w, inputs);
      && (s.exited <==> exists i :: 0 <= i < |inputs| && ex(inputs[i].0))
      && (s.exited ==> ex(inputs[s.consumed - 1].0))
      && forall i :: 0 <= i < s.consumed - 1 ==> !ex(inputs[i].0)
    decreases |inputs|
  {
    if inputs != [] {
      var h := step(w, inputs[0].0, inputs[0].1);
      if !h.stop {
        var rest := ServeWith(step, h.w, inputs[1..]);
        StopsWith(step, ex, h.w, inputs[1..]);
        ExitShift(ex, inputs, rest.consumed, rest.exited);
      }
    }
  }

  /** A line handler that stops exactly on the lines `ex` holds for. */
  ghost predicate StopsOn(step: (Worker, string, Env) -> Handled, ex: string -> bool) {
    forall w: Worker, line: string, env: Env :: step(w, line, env).stop <==> ex(line)
  }

  /** The first line satisfying `ex` in `inputs`, given the same about `inputs[1..]`. */
  lemma ExitShift(ex: string -> bool, inputs: seq<(string, Env)>, c: nat, exited: bool)
    requires inputs != [] && !ex(inputs[0].0) && c <= |inputs| - 1
    requires exited <==> exists i :: 0 <= i < |inputs[1..]| && ex(inputs[1..][i].0)
    requires exited ==> c > 0 && ex(inputs[1..][c - 1].0)
    requires forall i :: 0 <= i < c - 1 ==> !ex(inputs[1..][i].0)
    ensures exited <==> exists i :: 0 <= i < |inputs| && ex(inputs[i].0)
    ensures exited ==> ex(inputs[c].0)
    ensures forall i :: 0 <= i < c ==> !ex(inputs[i].0)
  {
    forall i | 0 <= i < c ensures !ex(inputs[i].0) {
      if i > 0 { assert inputs[i] == inputs[1..][i - 1]; }
    }
    if exists i :: 0 <= i < |inputs| && ex(inputs[i].0) {
      var i :| 0 <= i < |inputs| && ex(inputs[i].0);
      assert inputs[1..][i - 1] == inputs[i];
    }
    if exited {
      assert inputs[1..][c - 1] == inputs[c];
    }
  }

  predicate IsExit(line: string) {
    CommandOf(line).Some? && Get(CommandOf(line).value, "action") == Some(Str("exit"))
  }
}
