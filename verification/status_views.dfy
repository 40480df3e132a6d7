/** How the model status is shown: the three-colour light
    (src/components/ui/status-light.jsx) and the stage indicator with its download panel
    (src/components/ui/model-status-indicator.jsx).  Rendering is reduced to the values
    chosen: class names, texts and which elements appear.
 */
module StatusViews {
  import opened Wrappers
  import opened Json
  import Text
  import ModelStatus

  type Status = ModelStatus.Status

  // ---------------------------------------------------------------------------
  // The light

  /** `modelStatus.error` is truthy. */
  predicate HasError(s: Status) {
    s.error.Some? && s.error.value != []
  }

  /** The branch the light is in, by priority: loading, then error, then ready. */
  datatype Light = Yellow | Red | Green | Gray

  function LightOf(s: Status): (l: Light)
    ensures l == Yellow <==> s.isLoading
    ensures l == Red <==> !s.isLoading && HasError(s)
    ensures l == Green <==> !s.isLoading && !HasError(s) && s.isReady
  {
    if s.isLoading then Yellow
    else if HasError(s) then Red
    else if s.isReady then Green
    else Gray
  }

  /** `getLightColor`. */
  function LightColour(s: Status): string {
    if s.isLoading then "bg-yellow-500"
    else if HasError(s) then "bg-red-500"
    else if s.isReady then "bg-green-500"
    else "bg-gray-400"
  }

  /** `getLightAnimation`. */
  function LightAnimation(s: Status): string {
    if s.isLoading then "animate-pulse"
    else if HasError(s) then "model-error"
    else if s.isReady then "model-ready"
    else ""
  }

  /** `getTooltipText`. */
  function LightTooltip(s: Status): string {
    if s.isLoading then "🟡 模型加载中"
    else if HasError(s) then "🔴 模型加载失败"
    else if s.isReady then "🟢 模型已就绪"
    else "⚪ 模型状态未知"
  }

  /** Colour, animation and tooltip all follow the light's branch. */
  lemma LightBranchesAgree(s: Status)
    ensures var l := LightOf(s);
      && LightColour(s) == (match l case Yellow => "bg-yellow-500" case Red => "bg-red-500"
                                    case Green => "bg-green-500" case Gray => "bg-gray-400")
      && LightAnimation(s) == (match l case Yellow => "animate-pulse" case Red => "model-error"
                                       case Green => "model-ready" case Gray => "")
      && LightTooltip(s) == (match l case Yellow => "🟡 模型加载中" case Red => "🔴 模型加载失败"
                                     case Green => "🟢 模型已就绪" case Gray => "⚪ 模型状态未知")
  {
  }

  /** Loading wins over an error and over readiness; an error wins over readiness. */
  lemma LightPriority(s: Status)
    ensures s.isLoading ==> LightColour(s) == "bg-yellow-500"
    ensures !s.isLoading && HasError(s) ==> LightColour(s) == "bg-red-500"
    ensures LightColour(s) == "bg-green-500" <==> !s.isLoading && !HasError(s) && s.isReady
  {
  }

  // ---------------------------------------------------------------------------
  // The indicator

  const KnownStages: seq<string> := [ModelStatus.Checking, ModelStatus.NeedDownload, ModelStatus.Downloading,
                                     ModelStatus.Loading, ModelStatus.Ready, ModelStatus.Failed]

  const UnknownStageText: string := "模型状态未知"

  /** `getStatusText`. */
  function StageText(stage: string): string {
    if stage == ModelStatus.Checking then "检查模型状态..."
    else if stage == ModelStatus.NeedDownload then "需要下载模型"
    else if stage == ModelStatus.Downloading then "正在下载模型..."
    else if stage == ModelStatus.Loading then "模型加载中..."
    else if stage == ModelStatus.Ready then "模型已就绪"
    else if stage == ModelStatus.Failed then "模型错误"
    else UnknownStageText
  }

  /** The stage a status text stands for: the inverse of `StageText` on the known stages. */
  function TextStage(text: string): (stage: Option<string>)
    ensures stage.Some? ==> stage.value in KnownStages
  {
    if text == "检查模型状态..." then Some(ModelStatus.Checking)
    else if text == "需要下载模型" then Some(ModelStatus.NeedDownload)
    else if text == "正在下载模型..." then Some(ModelStatus.Downloading)
    else if text == "模型加载中..." then Some(ModelStatus.Loading)
    else if text == "模型已就绪" then Some(ModelStatus.Ready)
    else if text == "模型错误" then Some(ModelStatus.Failed)
    else None
  }

  /** Every known stage has its own text, and every other stage shows the unknown text. */
  lemma StageTextRoundTrip(stage: string)
    ensures stage in KnownStages ==> TextStage(StageText(stage)) == Some(stage)
    ensures stage !in KnownStages ==> StageText(stage) == UnknownStageText && TextStage(StageText(stage)).None?
  {
  }

  /** `getStatusColor`. */
  function StageColour(stage: string): (c: string)
    ensures c == "text-blue-600" <==> stage in {ModelStatus.Checking, ModelStatus.Downloading, ModelStatus.Loading}
    ensures c == "text-gray-600" <==> stage !in KnownStages
  {
    if stage == ModelStatus.Checking || stage == ModelStatus.Downloading || stage == ModelStatus.Loading then "text-blue-600"
    else if stage == ModelStatus.NeedDownload then "text-orange-600"
    else if stage == ModelStatus.Ready then "text-green-600"
    else if stage == ModelStatus.Failed then "text-red-600"
    else "text-gray-600"
  }

  /** JavaScript `x > 0` for a numeric progress value. */
  predicate Positive(v: Json) {
    v.Num? && !v.neg && JsTruthy(v)
  }

  /** `getProgressText`: the download percentage while downloading, else the load
      percentage while loading, when positive. */
  function ProgressText(s: Status): (t: Option<string>)
    ensures t.Some? <==> (s.isDownloading && Positive(s.downloadProgress)) || (s.isLoading && Positive(s.progress))
    ensures s.isDownloading && Positive(s.downloadProgress) ==> t == Some(JsText(s.downloadProgress) + "%")
  {
    if s.isDownloading && Positive(s.downloadProgress) then Some(JsText(s.downloadProgress) + "%")
    else if s.isLoading && Positive(s.progress) then Some(JsText(s.progress) + "%")
    else None
  }

  /** The download button beside the status text. */
  predicate ShowsDownloadButton(s: Status, hasHandler: bool) {
    s.stage == ModelStatus.NeedDownload && hasHandler
  }

  /** `ModelDownloadProgress`: nothing, the prompt to download, or the progress bar. */
  datatype Panel =
    | NoPanel
    | DownloadPrompt(buttonDisabled: bool, buttonLabel: string)
    | ProgressBar(percentText: string, cancelShown: bool)

  function DownloadPanel(s: Status, hasCancel: bool): (p: Panel)
    ensures p.NoPanel? <==> s.stage != ModelStatus.NeedDownload && s.stage != ModelStatus.Downloading
    ensures p.DownloadPrompt? ==> p.buttonDisabled == s.isDownloading
    ensures p.ProgressBar? ==> p.cancelShown == hasCancel
  {
    if s.stage == ModelStatus.NeedDownload then
      DownloadPrompt(s.isDownloading, if s.isDownloading then "准备下载..." else "开始下载")
    else if s.stage == ModelStatus.Downloading then
      ProgressBar(JsText(if JsTruthy(s.downloadProgress) then s.downloadProgress else Int(0)) + "%", hasCancel)
    else NoPanel
  }

  /** A check that finds the models missing offers the download, with an enabled button
      when no download is running. */
  lemma MissingModelsOfferDownload(s: Status, missing: Option<seq<string>>, server: ModelStatus.Server)
    requires !s.isDownloading
    ensures var r := ModelStatus.CheckModelStatus(s, true, ModelStatus.Files(true, false, missing), server);
      && ShowsDownloadButton(r, true)
      && DownloadPanel(r, false) == DownloadPrompt(false, "开始下载")
  {
  }

  /** While a download runs, a progress event shows its overall percentage. */
  lemma ProgressEventShown(s: Status, whole: nat)
    requires 0 < whole
    ensures var r := ModelStatus.OnProgress(ModelStatus.DownloadStarted(s), Some(Int(whole)), None);
      && ProgressText(r) == Some(Text.NatToString(whole) + "%")
      && DownloadPanel(r, true) == ProgressBar(Text.NatToString(whole) + "%", true)
  {
    assert Text.DropTrailing([], IsZeroDigit) == [];
    assert JsText(Int(whole)) == Text.NatToString(whole);
  }
}
