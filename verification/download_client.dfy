/** `downloadModels` (src/helpers/funasrManager.js): run the download script and settle
    one promise from the JSON lines it prints, its exit, a spawn error or a 30 minute
    timer.  Progress lines are forwarded to the caller's callback.

    The script process is replaced by the events it delivers; each event line is one
    stdout chunk holding one line.
 */
module DownloadClient {
  import opened Wrappers
  import opened Text
  import opened Json
  import Assets
  import ProcessRunner
  import DownloadScript

  const AlreadyThereMessage: string := "模型已存在，无需下载"
  const DoneMessage: string := "模型下载完成"
  const FailedMessage: string := "模型下载失败"
  const ScriptMissingPrefix: string := "下载脚本未找到: "
  const ExitPrefix: string := "模型下载进程退出，代码: "
  const SpawnFailedPrefix: string := "启动下载进程失败: "
  const TimeoutMessage: string := "模型下载超时"
  /** 30 minutes. */
  const TimeoutMs: nat := 1800000

  datatype Outcome = Pending | Resolved(message: Json) | Rejected(reason: string)

  /** The six fields handed to the progress callback; absent fields are undefined. */
  datatype Update = Update(stage: Option<Json>, model: Option<Json>, progress: Option<Json>,
                           overallProgress: Option<Json>, completed: Option<Json>,
                           total: Option<Json>)

  datatype Download = Download(
    hasCallback: bool,
    hasError: bool,
    outcome: Outcome,
    modelsDownloaded: bool,
    updates: seq<Update>,
    killed: bool)

  /** What the call does before any script runs: answer at once, or spawn the script. */
  datatype Launch = Answered(result: Result<string>) | Spawned(d: Download)

  /** The models already present answer at once; a missing interpreter or script is an
      error; otherwise the script starts with nothing settled. */
  function Begin(probed: Assets.Probe, python: Result<string>, scriptExists: bool,
                 scriptPath: string, hasCallback: bool): (l: Launch)
    ensures probed.downloaded <==> l == Answered(Success(AlreadyThereMessage))
    ensures l.Spawned? <==> !probed.downloaded && python.Success? && scriptExists
    ensures l.Spawned? ==> l.d.outcome.Pending? && !l.d.hasError && l.d.updates == []
    ensures !probed.downloaded && python.Success? && !scriptExists ==>
      l == Answered(Failure(ScriptMissingPrefix + scriptPath))
  {
    if probed.downloaded then Answered(Success(AlreadyThereMessage))
    else if python.Failure? then Answered(Failure(python.error))
    else if !scriptExists then Answered(Failure(ScriptMissingPrefix + scriptPath))
    else Spawned(Download(hasCallback, false, Pending, false, [], false))
  }

  /** A promise settles once: later settlements are ignored. */
  function Settle(o: Outcome, n: Outcome): (r: Outcome)
    ensures o.Pending? ==> r == n
    ensures !o.Pending? ==> r == o
  {
    if o.Pending? then n else o
  }

  function UpdateOf(v: Json): Update {
    Update(Get(v, "stage"), Get(v, "model"), Get(v, "progress"), Get(v, "overall_progress"),
           Get(v, "completed"), Get(v, "total"))
  }

  /** The message of a successful final line, or the default one. */
  function MessageOr(m: Option<Json>): (r: Json)
    ensures JsTruthyField(m) ==> r == m.value
    ensures !JsTruthyField(m) ==> r == Str(DoneMessage)
  {
    if JsTruthyField(m) then m.value else Str(DoneMessage)
  }

  /** One line of the script's standard output; lines that are blank or not JSON are
      skipped. */
  function OnLine(d: Download, line: string): (d': Download)
    ensures d'.hasCallback == d.hasCallback && d.updates <= d'.updates
    ensures !d.outcome.Pending? ==> d'.outcome == d.outcome
    ensures d.hasError ==> d'.hasError
    ensures Trim(line) == [] || Parse(line).None? ==> d' == d
  {
    if Trim(line) == [] then d
    else match Parse(line)
      case None => d
      case Some(v) => OnValue(d, v)
  }

  /** The reaction to one parsed line: an `error` field rejects, a `stage` field is
      forwarded, and a `success` field settles. */
  function OnValue(d: Download, v: Json): (d': Download)
    ensures d'.hasCallback == d.hasCallback && d.updates <= d'.updates
    ensures !d.outcome.Pending? ==> d'.outcome == d.outcome
    ensures d.hasError ==> d'.hasError
    ensures JsTruthyField(Get(v, "error")) ==>
      d'.hasError && d'.outcome == Settle(d.outcome, Rejected(JsText(Get(v, "error").value)))
      && d'.updates == d.updates
    ensures !JsTruthyField(Get(v, "error")) && Get(v, "success").None? ==>
      && d'.outcome == d.outcome && d'.hasError == d.hasError
      && d'.updates == d.updates + (if JsTruthyField(Get(v, "stage")) && d.hasCallback then [UpdateOf(v)] else [])
    ensures !JsTruthyField(Get(v, "error")) && Get(v, "success").Some? ==>
      (if JsTruthy(Get(v, "success").value)
       then d'.modelsDownloaded && d'.outcome == Settle(d.outcome, Resolved(MessageOr(Get(v, "message"))))
       else d'.hasError && d'.outcome == Settle(d.outcome, Rejected(FailedMessage)))
  {
    // reading a field of null throws, and the line is skipped
    if v == Null then d
    else if JsTruthyField(Get(v, "error")) then
      d.(hasError := true, outcome := Settle(d.outcome, Rejected(JsText(Get(v, "error").value))))
    else
      var d1 := if JsTruthyField(Get(v, "stage")) && d.hasCallback
                then d.(updates := d.updates + [UpdateOf(v)]) else d;
      match Get(v, "success")
      case None => d1
      case Some(ok) =>
        if JsTruthy(ok) then
          d1.(modelsDownloaded := true, outcome := Settle(d1.outcome, Resolved(MessageOr(Get(v, "message")))))
        else d1.(hasError := true, outcome := Settle(d1.outcome, Rejected(FailedMessage)))
  }

  lemma ReadsLine(d: Download, v: Json, st: Style)
    requires Valid(v) && v.Obj?
    ensures OnLine(d, Serialize(v, st)) == OnValue(d, v)
  {
    ParseSerialize(v, st);
    ObjectTextTrims(v, st);
  }

  /** The script exited; after an error line nothing happens. */
  function OnClose(d: Download, code: Option<int>): (d': Download)
    ensures d'.hasCallback == d.hasCallback && d.updates <= d'.updates
    ensures d.hasError ==> d' == d
    ensures !d.outcome.Pending? ==> d'.outcome == d.outcome
    ensures !d.hasError && d.outcome.Pending? ==>
      d'.outcome == (if code == Some(0) then Resolved(Str(DoneMessage))
                     else Rejected(ExitPrefix + ProcessRunner.CodeText(code)))
  {
    if d.hasError then d
    else if code == Some(0) then
      d.(modelsDownloaded := true, outcome := Settle(d.outcome, Resolved(Str(DoneMessage))))
    else d.(outcome := Settle(d.outcome, Rejected(ExitPrefix + ProcessRunner.CodeText(code))))
  }

  function OnSpawnError(d: Download, message: string): (d': Download)
    ensures d'.hasCallback == d.hasCallback && d.updates <= d'.updates
    ensures d.hasError ==> d' == d
    ensures d'.outcome == (if d.hasError then d.outcome else Settle(d.outcome, Rejected(SpawnFailedPrefix + message)))
  {
    if d.hasError then d else d.(outcome := Settle(d.outcome, Rejected(SpawnFailedPrefix + message)))
  }

  /** The 30 minute timer kills the script unless an error line came first, even when
      the promise has already settled. */
  function OnTimeout(d: Download): (d': Download)
    ensures d'.hasCallback == d.hasCallback && d.updates <= d'.updates
    ensures d.hasError ==> d' == d
    ensures !d.hasError ==> d'.killed && d'.outcome == Settle(d.outcome, Rejected(TimeoutMessage))
  {
    if d.hasError then d else d.(killed := true, outcome := Settle(d.outcome, Rejected(TimeoutMessage)))
  }

  datatype Event = Line(text: string) | Exit(code: Option<int>) | SpawnFailed(message: string) | Timer

  function Step(d: Download, e: Event): (d': Download)
    ensures !d.outcome.Pending? ==> d'.outcome == d.outcome
    ensures d'.hasCallback == d.hasCallback && (d.hasError ==> d'.hasError)
    ensures d.updates <= d'.updates
  {
    match e
    case Line(t) => OnLine(d, t)
    case Exit(c) => OnClose(d, c)
    case SpawnFailed(m) => OnSpawnError(d, m)
    case Timer => OnTimeout(d)
  }

  /** The events in order: the callback's presence never changes, the error flag is
      never cleared, and the progress updates only ever grow. */
  function Run(d: Download, es: seq<Event>): (r: Download)
    ensures r.hasCallback == d.hasCallback && (d.hasError ==> r.hasError)
    ensures d.updates <= r.updates
    decreases |es|
  {
    if es == [] then d else Run(Step(d, es[0]), es[1..])
  }

  // ---------------------------------------------------------------------------
  // Properties

  /** The promise settles once: whatever follows, a settled download keeps its outcome. */
  lemma {:induction false} SettledStays(d: Download, es: seq<Event>)
    requires !d.outcome.Pending?
    ensures Run(d, es).outcome == d.outcome
    decreases |es|
  {
    if es != [] {
      SettledStays(Step(d, es[0]), es[1..]);
    }
  }

  /** After an error line, the exit, a spawn error and the timer change nothing. */
  lemma {:induction false} ErrorSilencesTheRest(d: Download, es: seq<Event>)
    requires d.hasError
    requires forall i :: 0 <= i < |es| ==> !es[i].Line?
    ensures Run(d, es) == d
    decreases |es|
  {
    if es != [] {
      ErrorSilencesTheRest(Step(d, es[0]), es[1..]);
    }
  }

  /** The script's report of a failed model, carrying a message, rejects a pending
      download with that message. */
  lemma FailedReportRejects(d: Download, t: DownloadScript.Tally, r: DownloadScript.Report)
    requires d.outcome.Pending?
    requires r.stage.Failed? && r.stage.message != []
    ensures var d' := OnLine(d, Serialize(DownloadScript.StatusLine(t, r), Spaced));
      d'.hasError && d'.outcome == Rejected(r.stage.message)
  {
    var v := DownloadScript.StatusLine(t, r);
    ReadsLine(d, v, Spaced);
    DownloadScript.ErrorFieldIffFailure(t, r);
  }

  /** Any other report leaves the outcome alone and, with a callback, is forwarded with
      its stage and count. */
  lemma ProgressReportForwarded(d: Download, t: DownloadScript.Tally, r: DownloadScript.Report)
    requires !(r.stage.Failed? && r.stage.message != [])
    ensures var v := DownloadScript.StatusLine(t, r);
      var d' := OnLine(d, Serialize(v, Spaced));
      && d'.outcome == d.outcome && d'.hasError == d.hasError
      && d'.updates == d.updates + (if d.hasCallback then [UpdateOf(v)] else [])
      && UpdateOf(v).stage == Some(Str(DownloadScript.StageName(r.stage)))
      && UpdateOf(v).completed == Some(Int(t.completed))
  {
    var v := DownloadScript.StatusLine(t, r);
    ReadsLine(d, v, Spaced);
    DownloadScript.ErrorFieldIffFailure(t, r);
    DownloadScript.StatusLineFields(t, r);
    assert DownloadScript.StageName(r.stage) != [];
  }

  /** The script's final line resolves a pending download with the script's message when
      every model was downloaded, and rejects it with the list of failed models
      otherwise. */
  lemma FinalLineSettles(d: Download, rs: seq<DownloadScript.Report>, order: seq<Assets.Asset>)
    requires d.outcome.Pending?
    ensures var failed := DownloadScript.FailedModels(rs, order);
      var d' := OnLine(d, Serialize(DownloadScript.Final(rs, order), Spaced));
      && (failed == [] ==>
            d'.outcome == Resolved(Str(DownloadScript.AllDoneMessage)) && d'.modelsDownloaded)
      && (failed != [] ==>
            d'.hasError
            && d'.outcome == Rejected(DownloadScript.FailedPrefix + Join(Assets.AssetNames(failed), ", ")))
  {
    var v := DownloadScript.Final(rs, order);
    ReadsLine(d, v, Spaced);
    DownloadScript.FinalReportsFailures(rs, order);
    var failed := DownloadScript.FailedModels(rs, order);
    if failed == [] {
      SucceededValue(d, v);
    } else {
      FailedValue(d, v, DownloadScript.FailedPrefix + Join(Assets.AssetNames(failed), ", "));
    }
  }

  lemma SucceededValue(d: Download, v: Json)
    requires d.outcome.Pending?
    requires Get(v, "error").None? && Get(v, "success") == Some(Bool(true))
    requires Get(v, "message") == Some(Str(DownloadScript.AllDoneMessage))
    ensures OnValue(d, v).outcome == Resolved(Str(DownloadScript.AllDoneMessage))
    ensures OnValue(d, v).modelsDownloaded
  {
  }

  lemma FailedValue(d: Download, v: Json, message: string)
    requires d.outcome.Pending? && message != []
    requires Get(v, "error") == Some(Str(message))
    ensures OnValue(d, v).outcome == Rejected(message) && OnValue(d, v).hasError
  {
  }
}
