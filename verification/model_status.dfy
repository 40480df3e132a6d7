/** The renderer's model-status hook (src/hooks/useModelStatus.js): the status record the
    rest of the interface reads, how a status check derives its stage from the file probe
    and the server's answer, the download's state updates, the two event handlers, and
    when polling runs.  The IPC answers are inputs; progress values are JSON numbers as
    they arrive.
 */
module ModelStatus {
  import opened Wrappers
  import opened Json

  const Checking: string := "checking"
  const NeedDownload: string := "need_download"
  const Downloading: string := "downloading"
  const Loading: string := "loading"
  const Ready: string := "ready"
  const Failed: string := "error"

  const NoApi: string := "Electron API 不可用"
  const FileCheckFailed: string := "检查模型文件失败"
  const ServerNotReady: string := "服务器未就绪"
  const DownloadFailed: string := "下载失败"
  const RestartPrefix: string := "重启服务器失败: "

  datatype Status = Status(
    isLoading: bool,
    isReady: bool,
    isDownloading: bool,
    modelsDownloaded: bool,
    error: Option<string>,
    progress: Json,
    downloadProgress: Json,
    missingModels: seq<string>,
    stage: string)

  const Initial: Status := Status(true, false, false, false, None, Int(0), Int(0), [], Checking)

  /** What `check-model-files` answered (a rejection reads as `success: false`). */
  datatype Files = Files(success: bool, modelsDownloaded: bool, missingModels: Option<seq<string>>)

  /** What `check-funasr-status` answered (a rejection reads as `success: false`). */
  datatype Server = Server(success: bool, modelsInitialized: bool, initializing: bool, error: string)

  // ---------------------------------------------------------------------------
  // checkModelStatus

  /** The stage a status check derives, in the order the hook tests. */
  function CheckModelStatus(s: Status, apiPresent: bool, files: Files, server: Server): (r: Status)
    ensures !apiPresent || !files.success ==>
      (&& r.stage == Failed && !r.isLoading && r.isReady == s.isReady
       && r.error == Some(if !apiPresent then NoApi else FileCheckFailed))
    ensures apiPresent && files.success && !files.modelsDownloaded ==>
      r.stage == NeedDownload && !r.isReady && !r.isLoading && r.error.None?
      && r.missingModels == (if files.missingModels.Some? then files.missingModels.value else [])
    ensures apiPresent && files.success && files.modelsDownloaded && server.success && server.modelsInitialized ==>
      r.stage == Ready && r.isReady && !r.isLoading && r.progress == Int(100) && r.error.None?
    ensures apiPresent && files.success && files.modelsDownloaded && !(server.success && server.modelsInitialized) ==>
      && !r.isReady
      && (server.initializing ==> r.stage == Loading && r.isLoading && r.error.None?)
      && (!server.initializing ==> r.stage == Failed && r.error == Some(if server.error != [] then server.error else ServerNotReady))
    ensures r.isDownloading == s.isDownloading && r.downloadProgress == s.downloadProgress
  {
    if !apiPresent then s.(isLoading := false, error := Some(NoApi), stage := Failed)
    else if !files.success then s.(isLoading := false, error := Some(FileCheckFailed), stage := Failed)
    else if !files.modelsDownloaded then
      s.(isLoading := false, isReady := false, modelsDownloaded := false,
         missingModels := if files.missingModels.Some? then files.missingModels.value else [],
         error := None, progress := Int(0), stage := NeedDownload)
    else if server.success && server.modelsInitialized then
      s.(isLoading := false, isReady := true, modelsDownloaded := true, missingModels := [],
         error := None, progress := Int(100), stage := Ready)
    else if server.initializing then
      s.(isLoading := true, isReady := false, modelsDownloaded := true, missingModels := [],
         error := None, progress := Int(50), stage := Loading)
    else
      s.(isLoading := false, isReady := false, modelsDownloaded := true, missingModels := [],
         error := Some(if server.error != [] then server.error else ServerNotReady),
         progress := Int(0), stage := Failed)
  }

  // ---------------------------------------------------------------------------
  // downloadModels

  /** The state while a download runs (after the API check). */
  function DownloadStarted(s: Status): (r: Status)
    ensures r.isDownloading && !r.isLoading && r.stage == Downloading && r.error.None?
    ensures r.downloadProgress == Int(0) && r.isReady == s.isReady
  {
    s.(isDownloading := true, downloadProgress := Int(0), error := None, stage := Downloading, isLoading := false)
  }

  /** How the download and the restart that follows it ended. */
  datatype DownloadEnd = Downloaded(restartError: Option<string>) | NotDownloaded(error: string)

  /** `downloadModels`: the final state and the value returned (the error when it failed). */
  function DownloadModels(s: Status, apiPresent: bool, end: DownloadEnd): (r: (Status, Result<()>))
    ensures r.1.Success? <==> apiPresent && end.Downloaded?
    ensures !r.0.isDownloading
    ensures r.1.Failure? ==> r.0.stage == Failed && !r.0.isLoading && r.0.error == Some(r.1.error)
    ensures apiPresent && end.Downloaded? ==> r.0.modelsDownloaded && r.0.downloadProgress == Int(100)
    ensures apiPresent && end.Downloaded? && end.restartError.None? ==> r.0.stage == Loading && r.0.isLoading
    ensures apiPresent && end == Downloaded(None) ==> r.0.error.None?
  {
    if !apiPresent then (s.(isDownloading := false, isLoading := false, error := Some(NoApi), stage := Failed), Failure(NoApi))
    else
      var d := DownloadStarted(s);
      match end
      case Downloaded(restart) =>
        var loaded := d.(isDownloading := false, modelsDownloaded := true, downloadProgress := Int(100),
                         stage := Loading, isLoading := true);
        (match restart
         case None => (loaded, Success(()))
         case Some(m) => (loaded.(isLoading := false, error := Some(RestartPrefix + m), stage := Failed), Success(())))
      case NotDownloaded(e) =>
        var message := if e != [] then e else DownloadFailed;
        (d.(isDownloading := false, isLoading := false, error := Some(message), stage := Failed), Failure(message))
  }

  // ---------------------------------------------------------------------------
  // Events and polling

  /** A `model-download-progress` event: `overall_progress || progress || 0`, and the stage
      becomes downloading. */
  function OnProgress(s: Status, overall: Option<Json>, progress: Option<Json>): (r: Status)
    ensures r.stage == Downloading
    ensures JsTruthyField(overall) ==> r.downloadProgress == overall.value
    ensures !JsTruthyField(overall) && JsTruthyField(progress) ==> r.downloadProgress == progress.value
    ensures !JsTruthyField(overall) && !JsTruthyField(progress) ==> r.downloadProgress == Int(0)
    ensures r.(downloadProgress := s.downloadProgress, stage := s.stage) == s
  {
    var p := if JsTruthyField(overall) then overall.value
             else if JsTruthyField(progress) then progress.value
             else Int(0);
    s.(downloadProgress := p, stage := Downloading)
  }

  /** A `model_initialization` processing update. */
  function OnInitialization(s: Status, isLoading: bool, isReady: bool, progress: Option<Json>): (r: Status)
    ensures r.isReady == isReady && r.isLoading == isLoading
    ensures r.stage == (if isReady then Ready else Loading)
    ensures r.progress == (if JsTruthyField(progress) then progress.value else s.progress)
  {
    s.(isLoading := isLoading, isReady := isReady,
       progress := if JsTruthyField(progress) then progress.value else s.progress,
       stage := if isReady then Ready else Loading)
  }

  /** Whether the three-second status poll runs: only in the main window, and only while
      the model is neither ready nor downloading. */
  predicate Polls(s: Status, panelOrSettings: bool) {
    !panelOrSettings && !s.isReady && !s.isDownloading
  }

  // ---------------------------------------------------------------------------
  // Properties

  /** A status check that gets through the file probe leaves `isReady` set exactly when
      it derives the ready stage.  (A failed probe leaves `isReady` as it was.) */
  lemma ReadyIffReadyStage(s: Status, files: Files, server: Server)
    requires files.success
    ensures var r := CheckModelStatus(s, true, files, server);
      r.isReady <==> r.stage == Ready
  {
  }

  /** A check that finds the model ready stops the poll; any other stage with no download
      running keeps it going. */
  lemma PollingStopsWhenReady(s: Status, files: Files, server: Server)
    requires !s.isDownloading && !s.isReady
    ensures var r := CheckModelStatus(s, true, files, server);
      Polls(r, false) <==> r.stage != Ready
  {
  }

  /** A failed download hands control back to the poll. */
  lemma FailedDownloadResumesPolling(s: Status, e: string)
    requires !s.isReady
    ensures var r := DownloadModels(s, true, NotDownloaded(e));
      r.0.stage == Failed && Polls(r.0, false)
  {
  }

  /** A download that ends and restarts cleanly, followed by a check that finds the server
      initialised, leaves the model ready with full progress. */
  lemma DownloadThenReady(s: Status, missing: Option<seq<string>>)
    ensures var d := DownloadModels(s, true, Downloaded(None)).0;
      var r := CheckModelStatus(d, true, Files(true, true, missing), Server(true, true, false, []));
      && r.stage == Ready && r.isReady && r.progress == Int(100) && r.downloadProgress == Int(100)
      && !Polls(r, false)
  {
  }

  /** Progress events never stop the poll by themselves: they leave the flags alone. */
  lemma ProgressKeepsFlags(s: Status, overall: Option<Json>, progress: Option<Json>, panel: bool)
    ensures Polls(OnProgress(s, overall, progress), panel) == Polls(s, panel)
  {
  }
}
