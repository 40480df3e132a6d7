/** The supervisor of the speech worker (src/helpers/funasrManager.js): the handle of the
    running worker, the two readiness flags, the single start promise, the probe cache,
    and what happens on each line the worker prints, on its exit, on a spawn error and on
    the 120 s start timeout.  Commands go to the worker one JSON line at a time and are
    answered by the first JSON line it prints afterwards.

    Each spawned worker gets a generation number; the events a worker delivers carry it.
    Awaiting, timers and the child process itself are replaced by the events of a trace.
 */
module Supervisor {
  import opened Wrappers
  import opened Text
  import opened Json
  import Assets

  const Sentinel: string := "__FUNASR_INIT_RESULT__"
  const NotReadyMessage: string := "FunASR服务器未就绪"
  const CommandTimeoutMessage: string := "服务器响应超时"
  const ModelsMissingMessage: string := "模型文件未下载，无法启动服务器"
  const RestartedMessage: string := "FunASR服务器重启成功"

  /** What `_startFunASRServer` finds before spawning: the worker package is not
      installed, no interpreter is usable, the worker script is absent, the cache root
      cannot be resolved (the start promise rejects), or everything is in place. */
  datatype Precheck = NotInstalled | NoPython | ScriptMissing | NoCacheRoot | CanSpawn

  /** The closure state of one start: whether the sentinel was just seen, whether the
      init result was read, and whether the start promise has resolved. */
  datatype Handshake = Handshake(expecting: bool, received: bool, resolved: bool)

  datatype CommandOutcome =
    | Replied(value: Json)
    | Refused(message: string)
    | TimedOut(message: string)
      /** The timer found no worker handle: it throws before rejecting, so the caller's
          promise never settles. */
    | Hung

  datatype Pending = Pending(id: nat, gen: nat)

  datatype Sup = Sup(
    process: Option<nat>,
    serverReady: bool,
    modelsInitialized: bool,
    initPromise: bool,
    cache: Assets.ProbeCache,
    workers: seq<Handshake>,
    pending: seq<Pending>,
    stdin: seq<(nat, string)>,
    kills: seq<nat>,
    outcomes: seq<(nat, CommandOutcome)>,
    restarts: seq<Result<string>>)

  const Initial: Sup := Sup(None, false, false, false, Assets.EmptyCache, [], [], [], [], [], [])

  /** Generations name spawned workers; the cache holds only successful probes. */
  predicate Wf(s: Sup) {
    && (s.process.Some? ==> s.process.value < |s.workers|)
    && (forall i :: 0 <= i < |s.pending| ==> s.pending[i].gen < |s.workers|)
    && Assets.CacheValid(s.cache)
  }

  // ---------------------------------------------------------------------------
  // Starting

  /** `_startFunASRServer`: spawn a worker with a fresh handshake, unless a precheck
      fails, in which case nothing is spawned. */
  function StartServer(s: Sup, pre: Precheck): (s': Sup)
    requires Wf(s)
    ensures Wf(s')
    ensures pre == CanSpawn ==>
      && s'.process == Some(|s.workers|)
      && s'.workers == s.workers + [Handshake(false, false, false)]
    ensures pre != CanSpawn ==> s' == s
    ensures s'.serverReady == s.serverReady && s'.initPromise == s.initPromise
  {
    if pre == CanSpawn then
      s.(process := Some(|s.workers|), workers := s.workers + [Handshake(false, false, false)])
    else s
  }

  /** `preInitializeModels`: start only when no start promise exists yet. */
  function PreInit(s: Sup, pre: Precheck): (s': Sup)
    requires Wf(s)
    ensures Wf(s')
    ensures s.initPromise ==> s' == s
    ensures !s.initPromise ==> s' == StartServer(s.(initPromise := true), pre)
    ensures s'.initPromise
  {
    if s.initPromise then s else StartServer(s.(initPromise := true), pre)
  }

  // ---------------------------------------------------------------------------
  // Worker events

  /** The readiness handler's reaction to one stdout line: its next closure state, and
      whether the line was an init result reporting success. */
  function ReadInit(h: Handshake, line: string): (r: (Handshake, bool))
    ensures r.1 ==> r.0.received && r.0.resolved && !h.received
    ensures h.received ==> r.0.received == h.received && r.0.resolved == h.resolved && !r.1
  {
    if Trim(line) == [] then (h, false)
    else if Trim(line) == Sentinel then (h.(expecting := true), false)
    else if !h.expecting then (h, false)
    else
      var h1 := h.(expecting := false);
      match Parse(line)
      case None => (h1, false)
      case Some(v) =>
        if h.received then (h1, false)
        // reading `success` of null throws after the flag is set: the start promise is
        // not resolved here
        else if v == Null then (h1.(received := true), false)
        else (h1.(received := true, resolved := true), JsTruthyField(Get(v, "success")))
  }

  /** The readiness handler of generation `g` on one stdout line: an init result that
      reports success makes the supervisor ready and clears the probe cache. */
  function HandshakeLine(s: Sup, g: nat, line: string): (s': Sup)
    requires Wf(s) && g < |s.workers|
    ensures Wf(s')
    ensures s'.process == s.process && s'.pending == s.pending && |s'.workers| == |s.workers|
    ensures s'.initPromise == s.initPromise
    ensures s'.workers[g] == ReadInit(s.workers[g], line).0
    ensures s'.serverReady == (s.serverReady || ReadInit(s.workers[g], line).1)
    ensures ReadInit(s.workers[g], line).1 ==> s'.modelsInitialized && s'.cache == Assets.EmptyCache
    ensures !ReadInit(s.workers[g], line).1 ==>
      s'.modelsInitialized == s.modelsInitialized && s'.cache == s.cache
  {
    var (h, ok) := ReadInit(s.workers[g], line);
    var s1 := s.(workers := s.workers[g := h]);
    if ok then s1.(serverReady := true, modelsInitialized := true, cache := Assets.EmptyCache)
    else s1
  }

  /** The command listeners attached to generation `g`: a line that parses as JSON
      answers every one of them. */
  function CommandLine(s: Sup, g: nat, line: string): (s': Sup)
    requires Wf(s)
    ensures Wf(s')
    ensures Parse(line).None? || Trim(line) == [] ==> s' == s
    ensures forall i :: 0 <= i < |s'.pending| ==> s'.pending[i] in s.pending
    ensures Trim(line) != [] && Parse(line).Some? ==>
      forall i :: 0 <= i < |s'.pending| ==> s'.pending[i].gen != g
    ensures s'.workers == s.workers && s'.process == s.process && s'.initPromise == s.initPromise
    ensures s'.serverReady == s.serverReady
  {
    if Trim(line) == [] || Parse(line).None? then s
    else
      var answered := Waiting(s.pending, g);
      s.(pending := Others(s.pending, g),
         outcomes := s.outcomes + Answers(answered, if s.process.Some? then Replied(Parse(line).value) else Hung))
  }

  function Waiting(ps: seq<Pending>, g: nat): (r: seq<Pending>)
    ensures forall i :: 0 <= i < |r| ==> r[i] in ps && r[i].gen == g
    ensures forall p :: p in ps && p.gen == g ==> p in r
  {
    if ps == [] then []
    else (if ps[0].gen == g then [ps[0]] else []) + Waiting(ps[1..], g)
  }

  function Others(ps: seq<Pending>, g: nat): (r: seq<Pending>)
    ensures forall i :: 0 <= i < |r| ==> r[i] in ps && r[i].gen != g
    ensures forall p :: p in ps && p.gen != g ==> p in r
  {
    if ps == [] then []
    else (if ps[0].gen != g then [ps[0]] else []) + Others(ps[1..], g)
  }

  function Answers(ps: seq<Pending>, o: CommandOutcome): (r: seq<(nat, CommandOutcome)>)
    ensures |r| == |ps| && forall i :: 0 <= i < |ps| ==> r[i] == (ps[i].id, o)
  {
    if ps == [] then [] else [(ps[0].id, o)] + Answers(ps[1..], o)
  }

  /** A stdout line of generation `g` reaches both its readiness handler and the
      command listeners attached to it. */
  function OnLine(s: Sup, g: nat, line: string): (s': Sup)
    requires Wf(s) && g < |s.workers|
    ensures Wf(s')
    ensures s'.process == s.process && |s'.workers| == |s.workers| && s'.initPromise == s.initPromise
  {
    CommandLine(HandshakeLine(s, g, line), g, line)
  }

  /** The `close` handler corrected: it checks that the closing worker is still the
      current one. */
  function OnClose(s: Sup, g: nat): (s': Sup)
    requires Wf(s) && g < |s.workers|
    ensures Wf(s')
    ensures s.process == Some(g) ==>
      s'.process.None? && !s'.serverReady && !s'.modelsInitialized
    ensures s.process != Some(g) ==>
      s'.process == s.process && s'.serverReady == s.serverReady
      && s'.modelsInitialized == s.modelsInitialized
    ensures |s'.workers| == |s.workers| && (s'.workers[g].resolved || s.workers[g].received)
    ensures s'.initPromise == s.initPromise
  {
    var h := s.workers[g];
    var s1 := if h.received then s else s.(workers := s.workers[g := h.(resolved := true)]);
    if s.process == Some(g) then s1.(process := None, serverReady := false, modelsInitialized := false)
    else s1
  }

  /** The `close` handler as written: it clears the handle and the flags whichever
      worker closed, and resolves that worker's start if it never reported. */
  function OnCloseAsWritten(s: Sup, g: nat): (s': Sup)
    requires Wf(s) && g < |s.workers|
    ensures Wf(s')
    ensures s'.process.None? && !s'.serverReady && !s'.modelsInitialized
    ensures |s'.workers| == |s.workers| && (s'.workers[g].resolved || s.workers[g].received)
    ensures s'.workers[..g] == s.workers[..g] && s'.workers[g + 1..] == s.workers[g + 1..]
    ensures s'.initPromise == s.initPromise && s'.kills == s.kills && s'.pending == s.pending
  {
    var h := s.workers[g];
    var s1 := if h.received then s else s.(workers := s.workers[g := h.(resolved := true)]);
    s1.(process := None, serverReady := false, modelsInitialized := false)
  }

  /** The `error` handler corrected: only the current worker's error clears the handle
      and `serverReady`; `modelsInitialized` is left as it is. */
  function OnError(s: Sup, g: nat): (s': Sup)
    requires Wf(s) && g < |s.workers|
    ensures Wf(s')
    ensures s.process == Some(g) ==>
      s'.process.None? && !s'.serverReady && s'.modelsInitialized == s.modelsInitialized
    ensures s.process != Some(g) ==> s'.process == s.process && s'.serverReady == s.serverReady
    ensures |s'.workers| == |s.workers| && (s'.workers[g].resolved || s.workers[g].received)
    ensures s'.initPromise == s.initPromise
  {
    var h := s.workers[g];
    var s1 := if h.received then s else s.(workers := s.workers[g := h.(resolved := true)]);
    if s.process == Some(g) then s1.(process := None, serverReady := false) else s1
  }

  /** The `error` handler as written: whichever worker failed, the handle and
      `serverReady` are cleared; `modelsInitialized` is left as it is. */
  function OnErrorAsWritten(s: Sup, g: nat): (s': Sup)
    requires Wf(s) && g < |s.workers|
    ensures Wf(s')
    ensures s'.process.None? && !s'.serverReady && s'.modelsInitialized == s.modelsInitialized
    ensures |s'.workers| == |s.workers| && (s'.workers[g].resolved || s.workers[g].received)
    ensures s'.workers[..g] == s.workers[..g] && s'.workers[g + 1..] == s.workers[g + 1..]
    ensures s'.initPromise == s.initPromise && s'.kills == s.kills && s'.pending == s.pending
  {
    var h := s.workers[g];
    var s1 := if h.received then s else s.(workers := s.workers[g := h.(resolved := true)]);
    s1.(process := None, serverReady := false)
  }

  /** The 120 s start timer of generation `g`, corrected: a worker that never reported
      is killed only if it is still the current one, and the start promise resolves. */
  function OnStartTimeout(s: Sup, g: nat): (s': Sup)
    requires Wf(s) && g < |s.workers|
    ensures Wf(s')
    ensures s.workers[g].received ==> s' == s
    ensures |s'.workers| == |s.workers| && s'.initPromise == s.initPromise
    ensures !s.workers[g].received ==>
      s'.workers[g].resolved
      && s'.kills == s.kills + (if s.process == Some(g) then [g] else [])
    ensures s'.process == s.process && s'.serverReady == s.serverReady
  {
    var h := s.workers[g];
    if h.received then s
    else
      var s1 := s.(workers := s.workers[g := h.(resolved := true)]);
      if s.process == Some(g) then s1.(kills := s.kills + [g]) else s1
  }

  /** The start timer as written: when the start it guards never reported, it kills
      whatever worker the handle holds now and resolves the start. */
  function OnStartTimeoutAsWritten(s: Sup, g: nat): (s': Sup)
    requires Wf(s) && g < |s.workers|
    ensures Wf(s')
    ensures s.workers[g].received ==> s' == s
    ensures |s'.workers| == |s.workers| && s'.initPromise == s.initPromise
    ensures !s.workers[g].received ==>
      s'.workers[g].resolved
      && s'.kills == s.kills + (if s.process.Some? then [s.process.value] else [])
    ensures s'.process == s.process && s'.serverReady == s.serverReady
  {
    var h := s.workers[g];
    if h.received then s
    else
      var s1 := s.(workers := s.workers[g := h.(resolved := true)]);
      if s.process.Some? then s1.(kills := s.kills + [s.process.value]) else s1
  }

  // ---------------------------------------------------------------------------
  // Commands

  /** `_sendServerCommand`: refused without writing unless a worker is held and ready;
      otherwise the command is written as one compact JSON line and a listener waits. */
  function SendCommand(s: Sup, id: nat, cmd: Json): (s': Sup)
    requires Wf(s)
    ensures Wf(s')
    ensures s.process.None? || !s.serverReady ==>
      s' == s.(outcomes := s.outcomes + [(id, Refused(NotReadyMessage))])
    ensures s.process.Some? && s.serverReady ==>
      && s'.stdin == s.stdin + [(s.process.value, Serialize(cmd, Compact) + "\n")]
      && s'.pending == s.pending + [Pending(id, s.process.value)]
      && s'.outcomes == s.outcomes
    ensures s'.workers == s.workers && s'.initPromise == s.initPromise
  {
    if s.process.None? || !s.serverReady then
      s.(outcomes := s.outcomes + [(id, Refused(NotReadyMessage))])
    else
      s.(stdin := s.stdin + [(s.process.value, Serialize(cmd, Compact) + "\n")],
         pending := s.pending + [Pending(id, s.process.value)])
  }

  /** The 60 s command timer: a command still waiting is rejected; the worker is not
      killed. */
  function OnCommandTimeout(s: Sup, id: nat): (s': Sup)
    requires Wf(s)
    ensures Wf(s')
    ensures s'.kills == s.kills && s'.process == s.process
    ensures s'.workers == s.workers && s'.initPromise == s.initPromise
    ensures (forall i :: 0 <= i < |s.pending| ==> s.pending[i].id != id) ==> s' == s
    ensures (exists i :: 0 <= i < |s.pending| && s.pending[i].id == id) ==>
      && s'.pending == WithoutId(s.pending, id)
      && s'.outcomes == s.outcomes + [(id, if s.process.Some? then TimedOut(CommandTimeoutMessage) else Hung)]
  {
    if forall i :: 0 <= i < |s.pending| ==> s.pending[i].id != id then s
    else
      s.(pending := WithoutId(s.pending, id),
         outcomes := s.outcomes + [(id, if s.process.Some? then TimedOut(CommandTimeoutMessage) else Hung)])
  }

  function WithoutId(ps: seq<Pending>, id: nat): (r: seq<Pending>)
    ensures forall i :: 0 <= i < |r| ==> r[i] in ps && r[i].id != id
    ensures forall p :: p in ps && p.id != id ==> p in r
  {
    if ps == [] then []
    else (if ps[0].id != id then [ps[0]] else []) + WithoutId(ps[1..], id)
  }

  // ---------------------------------------------------------------------------
  // Probing and restarting

  /** `checkModelFiles` at time `now`, where `probed` is what the filesystem shows. */
  function CheckFiles(s: Sup, now: int, probed: Assets.Probe): (r: (Assets.Probe, Sup))
    requires Wf(s)
    ensures Wf(r.1)
    ensures r.1 == s.(cache := r.1.cache)
    ensures Assets.CacheHit(s.cache, now, s.serverReady) ==> r == (s.cache.entry.value, s)
    ensures !Assets.CacheHit(s.cache, now, s.serverReady) ==>
      && r.0 == probed
      && r.1.cache == (if probed.success then Assets.ProbeCache(Some(probed), now) else s.cache)
  {
    var (p, c) := Assets.CheckModelFiles(s.cache, now, s.serverReady, probed);
    (p, s.(cache := c))
  }

  /** `_stopFunASRServer`: ask the worker to exit (refused when it is not ready); when
      the request is refused or not acknowledged in time, kill it.  Then forget it. */
  function Stop(s: Sup, acknowledged: bool): (s': Sup)
    requires Wf(s)
    ensures Wf(s')
    ensures s.process.None? ==> s' == s
    ensures s.process.Some? ==> s'.process.None? && !s'.serverReady && !s'.modelsInitialized
    ensures s'.workers == s.workers && s'.initPromise == s.initPromise
  {
    if s.process.None? then s
    else
      var g := s.process.value;
      var asked := if s.serverReady then s.(stdin := s.stdin + [(g, Serialize(ExitCommand, Compact) + "\n")]) else s;
      var killed := if !s.serverReady || !acknowledged then asked.(kills := asked.kills + [g]) else asked;
      killed.(process := None, serverReady := false, modelsInitialized := false)
  }

  const ExitCommand: Json := Obj([Member("action", Str("exit"))])

  /** `restartServer`: stop the worker, clear both flags, the start promise and the
      probe cache, probe again, and start a new worker only when the models are there.
      The result is the one the caller eventually receives: success whenever a start was
      attempted and did not reject, whatever the handshake later reports. */
  function Restart(s: Sup, acknowledged: bool, now: int, probed: Assets.Probe, pre: Precheck)
    : (s': Sup)
    requires Wf(s)
    ensures Wf(s')
    ensures !probed.downloaded ==>
      && s'.process.None? && !s'.serverReady && !s'.modelsInitialized && !s'.initPromise
      && s'.restarts == s.restarts + [Failure(ModelsMissingMessage)]
      && |s'.workers| == |s.workers|
    ensures probed.downloaded ==>
      && !s'.serverReady && !s'.modelsInitialized && s'.initPromise
      && (pre == CanSpawn <==> |s'.workers| == |s.workers| + 1)
      && (pre == CanSpawn ==>
            s'.process == Some(|s.workers|) && s'.workers[|s.workers|] == Handshake(false, false, false)
            && s'.workers[..|s.workers|] == s.workers)
      && s'.restarts == s.restarts +
           [if pre == NoCacheRoot then Failure(Assets.NoRootMessage) else Success(RestartedMessage)]
  {
    var s1 := Stop(s, acknowledged);
    var s2 := s1.(serverReady := false, modelsInitialized := false, initPromise := false,
                  cache := Assets.EmptyCache);
    var (p, s3) := CheckFiles(s2, now, probed);
    if !p.downloaded then s3.(restarts := s3.restarts + [Failure(ModelsMissingMessage)])
    else
      var s4 := StartServer(s3.(initPromise := true), pre);
      s4.(restarts := s4.restarts +
            [if pre == NoCacheRoot then Failure(Assets.NoRootMessage) else Success(RestartedMessage)])
  }

  // ---------------------------------------------------------------------------
  // Traces

  datatype Event =
    | PreInitEv(pre: Precheck)
    | RestartEv(acknowledged: bool, now: int, probed: Assets.Probe, pre: Precheck)
    | LineEv(gen: nat, line: string)
    | CloseEv(gen: nat)
    | ErrorEv(gen: nat)
    | StartTimeoutEv(gen: nat)
    | SendEv(id: nat, cmd: Json)
    | CommandTimeoutEv(id: nat)
    | ProbeEv(now: int, probed: Assets.Probe)

  /** Worker events name a worker that was spawned. */
  predicate Fits(s: Sup, e: Event) {
    match e
    case LineEv(g, _) => g < |s.workers|
    case CloseEv(g) => g < |s.workers|
    case ErrorEv(g) => g < |s.workers|
    case StartTimeoutEv(g) => g < |s.workers|
    case _ => true
  }

  /** Which worker-event handlers a trace runs: the program's, or the corrected ones
      that ignore events of workers other than the current one. */
  datatype Handlers = AsWritten | Corrected

  function Step(s: Sup, e: Event, hs: Handlers): (s': Sup)
    requires Wf(s) && Fits(s, e)
    ensures Wf(s')
    ensures |s'.workers| >= |s.workers|
    ensures !e.RestartEv? && s.initPromise ==> |s'.workers| == |s.workers| && s'.initPromise
    ensures !e.RestartEv? && !s.initPromise ==>
      (s'.initPromise || |s'.workers| == |s.workers|) && |s'.workers| <= |s.workers| + 1
  {
    match e
    case PreInitEv(pre) => PreInit(s, pre)
    case RestartEv(ack, now, probed, pre) => Restart(s, ack, now, probed, pre)
    case LineEv(g, line) => OnLine(s, g, line)
    case CloseEv(g) => if hs == AsWritten then OnCloseAsWritten(s, g) else OnClose(s, g)
    case ErrorEv(g) => if hs == AsWritten then OnErrorAsWritten(s, g) else OnError(s, g)
    case StartTimeoutEv(g) =>
      if hs == AsWritten then OnStartTimeoutAsWritten(s, g) else OnStartTimeout(s, g)
    case SendEv(id, cmd) => SendCommand(s, id, cmd)
    case CommandTimeoutEv(id) => OnCommandTimeout(s, id)
    case ProbeEv(now, probed) => CheckFiles(s, now, probed).1
  }

  /** The state after a trace, when every worker event in it names a spawned worker. */
  function Run(s: Sup, es: seq<Event>, hs: Handlers): (r: Option<Sup>)
    requires Wf(s)
    ensures r.Some? ==> Wf(r.value) && |r.value.workers| >= |s.workers|
    ensures es == [] ==> r == Some(s)
    decreases |es|
  {
    if es == [] then Some(s)
    else if !Fits(s, es[0]) then None
    else Run(Step(s, es[0], hs), es[1..], hs)
  }

  // ---------------------------------------------------------------------------
  // Properties


  /** Without a restart, at most one worker is ever spawned, with the program's handlers
      and with the corrected ones: the start promise, once set, turns every later
      pre-initialisation into a no-op. */
  lemma {:induction false} SingleStart(s: Sup, es: seq<Event>, hs: Handlers)
    requires Wf(s)
    requires forall i :: 0 <= i < |es| ==> !es[i].RestartEv?
    requires s.initPromise || |s.workers| == 0
    ensures Run(s, es, hs).Some? ==>
      |Run(s, es, hs).value.workers| <= (if s.initPromise then |s.workers| else 1)
    decreases |es|
  {
    if es != [] && Run(s, es, hs).Some? {
      var s1 := Step(s, es[0], hs);
      assert !es[0].RestartEv?;
      assert Run(s, es, hs) == Run(s1, es[1..], hs);
      SingleStart(s1, es[1..], hs);
    }
  }

  /** The worker that just started reports through two lines, the sentinel and the init
      result: afterwards the supervisor is ready exactly when the result reports success,
      whichever worker the handle holds. */
  lemma HandshakeReadsInitResult(s: Sup, g: nat, initResult: Json, st: Style)
    requires Wf(s) && g < |s.workers| && s.workers[g] == Handshake(false, false, false)
    requires Valid(initResult) && initResult.Obj?
    ensures var s2 := OnLine(OnLine(s, g, Sentinel), g, Serialize(initResult, st));
      && (s2.serverReady <==> s.serverReady || JsTruthyField(Get(initResult, "success")))
      && (JsTruthyField(Get(initResult, "success")) ==> s2.modelsInitialized)
      && s2.workers[g].received && s2.workers[g].resolved
      && s2.process == s.process
  {
    SentinelTrims();
    SentinelIsNotJson();
    ParseSerialize(initResult, st);
    ObjectTextNotSentinel(initResult, st);
    var s1 := OnLine(s, g, Sentinel);
    SentinelStep(s, g);
    InitLineStep(s1, g, initResult, st);
  }

  lemma SentinelStep(s: Sup, g: nat)
    requires Wf(s) && g < |s.workers| && s.workers[g] == Handshake(false, false, false)
    ensures var s1 := OnLine(s, g, Sentinel);
      s1.workers[g] == Handshake(true, false, false) && s1.serverReady == s.serverReady
      && s1.process == s.process
  {
    SentinelTrims();
    SentinelIsNotJson();
  }

  lemma InitLineStep(s: Sup, g: nat, initResult: Json, st: Style)
    requires Wf(s) && g < |s.workers| && s.workers[g] == Handshake(true, false, false)
    requires Valid(initResult) && initResult.Obj?
    ensures var s2 := OnLine(s, g, Serialize(initResult, st));
      && (s2.serverReady <==> s.serverReady || JsTruthyField(Get(initResult, "success")))
      && (JsTruthyField(Get(initResult, "success")) ==> s2.modelsInitialized)
      && s2.workers[g].received && s2.workers[g].resolved
      && s2.process == s.process
  {
    var line := Serialize(initResult, st);
    InitLineRead(s.workers[g], line, initResult, st);
    var s1 := HandshakeLine(s, g, line);
    assert OnLine(s, g, line) == CommandLine(s1, g, line);
  }

  /** The readiness handler of a worker waiting for its init result reads it. */
  lemma InitLineRead(h: Handshake, line: string, initResult: Json, st: Style)
    requires h == Handshake(true, false, false)
    requires Valid(initResult) && initResult.Obj? && line == Serialize(initResult, st)
    ensures ReadInit(h, line).0.received && ReadInit(h, line).0.resolved
    ensures ReadInit(h, line).1 <==> JsTruthyField(Get(initResult, "success"))
  {
    ParseSerialize(initResult, st);
    ObjectTextNotSentinel(initResult, st);
    ReadsParsedLine(h, line, initResult);
  }

  /** A line that is neither blank nor the sentinel and parses to a non-null value is the
      init result for a worker expecting one. */
  lemma ReadsParsedLine(h: Handshake, line: string, v: Json)
    requires h == Handshake(true, false, false)
    requires Trim(line) != [] && Trim(line) != Sentinel
    requires Parse(line) == Some(v) && v != Null
    ensures ReadInit(h, line) == (Handshake(false, true, true), JsTruthyField(Get(v, "success")))
  {
  }

  lemma SentinelTrims()
    ensures Trim(Sentinel) == Sentinel
  {
    assert Sentinel[0] == '_' && Sentinel[|Sentinel| - 1] == '_';
    TrimNoop(Sentinel);
  }

  lemma SentinelIsNotJson()
    ensures Parse(Sentinel).None?
  {
    UnderscoreIsNotJson(Sentinel);
  }

  /** No JSON text starts with an underscore. */
  lemma UnderscoreIsNotJson(s: string)
    requires |s| > 0 && s[0] == '_'
    ensures Parse(s).None?
  {
    assert SkipWs(s) == s;
    assert ParseValue(s).Failure?;
  }

  /** The text of an object neither trims away nor is the sentinel. */
  lemma ObjectTextNotSentinel(v: Json, st: Style)
    requires v.Obj?
    ensures var t := Serialize(v, st); Trim(t) != [] && Trim(t) != Sentinel
  {
    ObjectTextTrims(v, st);
    assert Sentinel[0] == '_';
  }

  /** A command is never written to a worker that is not ready. */
  lemma NoWriteUnlessReady(s: Sup, id: nat, cmd: Json)
    requires Wf(s)
    requires s.process.None? || !s.serverReady
    ensures SendCommand(s, id, cmd).stdin == s.stdin
    ensures SendCommand(s, id, cmd).pending == s.pending
  {
  }

  /** Every command waiting on worker `g` is answered by the next JSON line `g` prints. */
  lemma JsonLineAnswers(s: Sup, g: nat, line: string, p: Pending)
    requires Wf(s) && p in s.pending && p.gen == g && s.process.Some?
    ensures Trim(line) != [] && Parse(line).Some? ==>
      (p.id, Replied(Parse(line).value)) in CommandLine(s, g, line).outcomes
  {
    if Trim(line) != [] && Parse(line).Some? {
      var w := Waiting(s.pending, g);
      var o := Replied(Parse(line).value);
      assert p in w;
      assert CommandLine(s, g, line).outcomes == s.outcomes + Answers(w, o);
      AnsweredIn(s.outcomes, w, o, p);
    }
  }

  /** Every listener in `w` gets the outcome. */
  lemma AnsweredIn(before: seq<(nat, CommandOutcome)>, w: seq<Pending>, o: CommandOutcome, p: Pending)
    requires p in w
    ensures (p.id, o) in before + Answers(w, o)
  {
    var k :| 0 <= k < |w| && w[k] == p;
    var all := before + Answers(w, o);
    assert all[|before| + k] == Answers(w, o)[k];
  }

  /** A command sent to a ready worker goes out as its compact JSON text and a newline,
      and the first JSON line that worker prints answers it. */
  lemma CommandAnsweredByFirstJsonLine(s: Sup, id: nat, cmd: Json, line: string)
    requires Wf(s) && s.process.Some? && s.serverReady
    requires forall i :: 0 <= i < |s.pending| ==> s.pending[i].id != id
    ensures var g := s.process.value;
      var s1 := SendCommand(s, id, cmd);
      var s2 := OnLine(s1, g, line);
      && s1.stdin[|s1.stdin| - 1] == (g, Serialize(cmd, Compact) + "\n")
      && (Trim(line) != [] && Parse(line).Some? ==>
          && (id, Replied(Parse(line).value)) in s2.outcomes
          && forall i :: 0 <= i < |s2.pending| ==> s2.pending[i].id != id)
  {
    var g := s.process.value;
    var s1 := SendCommand(s, id, cmd);
    var h := HandshakeLine(s1, g, line);
    assert Pending(id, g) in h.pending;
    if Trim(line) != [] && Parse(line).Some? {
      JsonLineAnswers(h, g, line, Pending(id, g));
      var s2 := OnLine(s1, g, line);
      forall i | 0 <= i < |s2.pending| ensures s2.pending[i].id != id {
        var q := s2.pending[i];
        assert q in h.pending && q.gen != g;
        assert q in s1.pending;
        assert q in s.pending || q == Pending(id, g);
      }
    }
  }

  /** The 60 s timer of a command already answered finds no listener and changes
      nothing: an answered command is never also timed out. */
  lemma AnsweredNeverTimesOut(s: Sup, id: nat, cmd: Json, line: string)
    requires Wf(s) && s.process.Some? && s.serverReady
    requires forall i :: 0 <= i < |s.pending| ==> s.pending[i].id != id
    requires Trim(line) != [] && Parse(line).Some?
    ensures var s2 := OnLine(SendCommand(s, id, cmd), s.process.value, line);
      OnCommandTimeout(s2, id) == s2
  {
    CommandAnsweredByFirstJsonLine(s, id, cmd, line);
  }

  /** A command is timed out at most once: the second firing of its timer finds it
      gone and changes nothing. */
  lemma TimeoutOnce(s: Sup, id: nat)
    requires Wf(s)
    ensures OnCommandTimeout(OnCommandTimeout(s, id), id) == OnCommandTimeout(s, id)
  {
  }

  // ---------------------------------------------------------------------------
  // The stale `close`

  const OkResult: Json := Obj([Member("success", Bool(true))])

  lemma OkResultSucceeds()
    ensures Valid(OkResult) && JsTruthyField(Get(OkResult, "success"))
  {
  }

  /** Restarting from a ready worker `prev` spawns a new worker; the prev worker's `close`
      arrives afterwards, since the stop does not wait for it.  As written, that `close`
      drops the handle of the new worker: once the new worker reports success the
      supervisor is ready yet has no handle, and every command is refused. */
  lemma StaleCloseAsWritten(s: Sup, prev: nat, now: int, probed: Assets.Probe, id: nat, cmd: Json)
    requires Wf(s) && s.process == Some(prev) && s.serverReady
    requires probed.success && probed.downloaded
    ensures var s2 := Restart(s, true, now, probed, CanSpawn);
      var g := |s.workers|;
      var s3 := OnCloseAsWritten(s2, prev);
      var s4 := OnLine(OnLine(s3, g, Sentinel), g, Serialize(OkResult, Spaced));
      && s2.process == Some(g)
      && s4.serverReady && s4.process.None?
      && SendCommand(s4, id, cmd).outcomes == s4.outcomes + [(id, Refused(NotReadyMessage))]
  {
    var g := |s.workers|;
    var s2 := Restart(s, true, now, probed, CanSpawn);
    var s3 := OnCloseAsWritten(s2, prev);
    assert prev < g;
    assert s3.workers[prev + 1..][g - prev - 1] == s2.workers[prev + 1..][g - prev - 1];
    OkResultSucceeds();
    HandshakeReadsInitResult(s3, g, OkResult, Spaced);
  }

  /** With the generation check, the same `close` leaves the new worker in place, and a
      command after its successful handshake is written to it. */
  lemma StaleCloseCorrected(s: Sup, prev: nat, now: int, probed: Assets.Probe, id: nat, cmd: Json)
    requires Wf(s) && s.process == Some(prev) && s.serverReady
    requires probed.success && probed.downloaded
    ensures var s2 := Restart(s, true, now, probed, CanSpawn);
      var g := |s.workers|;
      var s3 := OnClose(s2, prev);
      var s4 := OnLine(OnLine(s3, g, Sentinel), g, Serialize(OkResult, Spaced));
      && s4.serverReady && s4.process == Some(g)
      && SendCommand(s4, id, cmd).stdin == s4.stdin + [(g, Serialize(cmd, Compact) + "\n")]
  {
    var g := |s.workers|;
    var s2 := Restart(s, true, now, probed, CanSpawn);
    var s3 := OnClose(s2, prev);
    assert prev < g;
    assert s2.workers[prev] == s.workers[prev];
    assert s3.workers[g] == s2.workers[g];
    OkResultSucceeds();
    HandshakeReadsInitResult(s3, g, OkResult, Spaced);
  }

  /** The same holds for a late `error` of the old worker: as written, it drops the new
      worker's handle, and once the new worker reports success every command is refused. */
  lemma StaleErrorAsWritten(s: Sup, prev: nat, now: int, probed: Assets.Probe, id: nat, cmd: Json)
    requires Wf(s) && s.process == Some(prev) && s.serverReady
    requires probed.success && probed.downloaded
    ensures var s2 := Restart(s, true, now, probed, CanSpawn);
      var g := |s.workers|;
      var s3 := OnErrorAsWritten(s2, prev);
      var s4 := OnLine(OnLine(s3, g, Sentinel), g, Serialize(OkResult, Spaced));
      && s2.process == Some(g)
      && s4.serverReady && s4.process.None?
      && SendCommand(s4, id, cmd).outcomes == s4.outcomes + [(id, Refused(NotReadyMessage))]
  {
    var g := |s.workers|;
    var s2 := Restart(s, true, now, probed, CanSpawn);
    var s3 := OnErrorAsWritten(s2, prev);
    assert prev < g;
    assert s3.workers[prev + 1..][g - prev - 1] == s2.workers[prev + 1..][g - prev - 1];
    OkResultSucceeds();
    HandshakeReadsInitResult(s3, g, OkResult, Spaced);
  }

  /** For the current worker the program's handlers and the corrected ones agree: the
      generation checks only matter for events of older workers. */
  lemma HandlersAgreeOnCurrent(s: Sup, g: nat)
    requires Wf(s) && g < |s.workers| && s.process == Some(g)
    ensures OnCloseAsWritten(s, g) == OnClose(s, g)
    ensures OnErrorAsWritten(s, g) == OnError(s, g)
    ensures OnStartTimeoutAsWritten(s, g) == OnStartTimeout(s, g)
  {
  }

  /** Whatever a worker other than the current one does, the handle and the readiness
      flags of the current one are untouched. */
  lemma StaleEventsHarmless(s: Sup, g: nat)
    requires Wf(s) && g < |s.workers| && s.process != Some(g)
    ensures OnClose(s, g).process == s.process && OnClose(s, g).serverReady == s.serverReady
    ensures OnError(s, g).process == s.process && OnError(s, g).serverReady == s.serverReady
    ensures OnStartTimeout(s, g).kills == s.kills
  {
  }

  // ---------------------------------------------------------------------------
  // The stale start timer

  /** A worker `prev` that never reported is stopped by a restart; its 120 s timer, still
      armed, then kills the new worker. */
  lemma StaleTimeoutAsWritten(s: Sup, prev: nat, now: int, probed: Assets.Probe)
    requires Wf(s) && s.process == Some(prev) && !s.workers[prev].received
    requires probed.success && probed.downloaded
    ensures var s1 := Restart(s, false, now, probed, CanSpawn);
      var s2 := OnStartTimeoutAsWritten(s1, prev);
      s1.process == Some(|s.workers|) && s2.kills == s1.kills + [|s.workers|]
  {
    var s1 := Restart(s, false, now, probed, CanSpawn);
    assert s1.workers[prev] == s.workers[prev];
  }

  /** With the generation check the prev timer leaves the new worker alone. */
  lemma StaleTimeoutCorrected(s: Sup, prev: nat, now: int, probed: Assets.Probe)
    requires Wf(s) && s.process == Some(prev) && !s.workers[prev].received
    requires probed.success && probed.downloaded
    ensures var s1 := Restart(s, false, now, probed, CanSpawn);
      var s2 := OnStartTimeout(s1, prev);
      s1.process == Some(|s.workers|) && s2.kills == s1.kills
  {
    var s1 := Restart(s, false, now, probed, CanSpawn);
    assert s1.workers[prev] == s.workers[prev];
  }
}
