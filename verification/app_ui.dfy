/** The main window's decisions (src/App.jsx): the microphone button's state and props,
    what the record toggle does in each model stage, the paste de-duplication, and the
    two completion callbacks.  Toasts and the paste itself are reduced to what is
    decided; the clock is an input.
 */
module AppUi {
  import opened Wrappers
  import opened Json
  import ModelStatus

  const PasteDebounce: int := 1000

  // ---------------------------------------------------------------------------
  // The microphone button

  datatype MicState = Recording | Processing | Optimizing | Hover | Idle

  /** `getMicState`: recording, then processing, then optimizing, then hover, else idle. */
  function MicStateOf(isRecording: bool, isProcessing: bool, isOptimizing: bool, isHovered: bool): (m: MicState)
    ensures m == Recording <==> isRecording
    ensures m == Processing <==> !isRecording && isProcessing
    ensures m == Optimizing <==> !isRecording && !isProcessing && isOptimizing
    ensures m == Hover <==> !isRecording && !isProcessing && !isOptimizing && isHovered
  {
    if isRecording then Recording
    else if isProcessing then Processing
    else if isOptimizing then Optimizing
    else if isHovered && !isRecording && !isProcessing && !isOptimizing then Hover
    else Idle
  }

  /** A possibly null text inside a template literal. */
  function NullableText(t: Option<string>): string {
    if t.Some? then t.value else "null"
  }

  datatype ButtonProps = ButtonProps(tooltip: string, disabled: bool)

  /** `getMicButtonProps`, without the class names. */
  function MicButton(s: ModelStatus.Status, mic: MicState, hotkey: string): (p: ButtonProps)
    ensures p.disabled <==> !s.isReady || mic == Processing || mic == Optimizing
    ensures s.isReady && (mic == Idle || mic == Hover) ==> p.tooltip == "按 [" + hotkey + "] 开始录音"
  {
    if !s.isReady then
      ButtonProps(
        if s.stage == ModelStatus.NeedDownload then "请先下载AI模型文件"
        else if s.stage == ModelStatus.Downloading then
          "模型下载中... " + JsText(if JsTruthy(s.downloadProgress) then s.downloadProgress else Int(0)) + "%"
        else if s.stage == ModelStatus.Loading then "模型加载中，请稍候..."
        else if s.stage == ModelStatus.Failed then "模型错误: " + NullableText(s.error)
        else "模型未就绪，请稍候...",
        true)
    else
      match mic
      case Idle => ButtonProps("按 [" + hotkey + "] 开始录音", false)
      case Hover => ButtonProps("按 [" + hotkey + "] 开始录音", false)
      case Recording => ButtonProps("正在录音...", false)
      case Processing => ButtonProps("正在识别语音...", true)
      case Optimizing => ButtonProps("AI正在优化文本...", true)
  }

  // ---------------------------------------------------------------------------
  // The record toggle

  datatype Toggle = Warn(message: string) | Start | Stop | Nothing

  /** `toggleRecording`: the four unusable stages and a model that is not ready only warn;
      otherwise start when neither recording nor processing, stop when recording. */
  function ToggleRecording(s: ModelStatus.Status, isRecording: bool, isProcessing: bool): (t: Toggle)
    ensures t.Warn? <==>
      (|| s.stage in {ModelStatus.NeedDownload, ModelStatus.Downloading, ModelStatus.Loading, ModelStatus.Failed}
       || !s.isReady)
    ensures t == Start <==> !t.Warn? && !isRecording && !isProcessing
    ensures t == Stop <==> !t.Warn? && isRecording
  {
    if s.stage == ModelStatus.NeedDownload then Warn("📥 请先下载AI模型文件")
    else if s.stage == ModelStatus.Downloading then Warn("⬇️ 模型正在下载中，请稍候...")
    else if s.stage == ModelStatus.Loading then Warn("🤖 模型正在加载中，请稍候...")
    else if s.stage == ModelStatus.Failed then Warn("❌ 模型错误: " + NullableText(s.error))
    else if !s.isReady then Warn("⏳ 模型未就绪，请稍候...")
    else if !isRecording && !isProcessing then Start
    else if isRecording then Stop
    else Nothing
  }

  /** When the toggle acts, the button was enabled: a start or stop never comes from a
      button shown disabled for lack of a model. */
  lemma ToggleActsOnlyWhenEnabled(s: ModelStatus.Status, isRecording: bool, isProcessing: bool, isOptimizing: bool,
                                  isHovered: bool, hotkey: string)
    requires ToggleRecording(s, isRecording, isProcessing) in {Start, Stop}
    ensures s.isReady
    ensures ToggleRecording(s, isRecording, isProcessing) == Start ==>
      MicStateOf(isRecording, isProcessing, isOptimizing, isHovered) !in {Recording, Processing}
    ensures ToggleRecording(s, isRecording, isProcessing) == Stop ==>
      !MicButton(s, MicStateOf(isRecording, isProcessing, isOptimizing, isHovered), hotkey).disabled
  {
  }

  // ---------------------------------------------------------------------------
  // safePaste

  /** The last paste attempted: its text and time. */
  datatype PasteMemo = PasteMemo(text: string, timestamp: int)

  const NoPaste: PasteMemo := PasteMemo([], 0)

  /** `safePaste`: the same text again within a second is skipped; anything else is
      remembered before the paste is attempted. */
  function SafePaste(m: PasteMemo, text: string, now: int): (r: (bool, PasteMemo))
    ensures !r.0 <==> m.text == text && now - m.timestamp < PasteDebounce
    ensures r.0 ==> r.1 == PasteMemo(text, now)
    ensures !r.0 ==> r.1 == m
  {
    if m.text == text && now - m.timestamp < PasteDebounce then (false, m)
    else (true, PasteMemo(text, now))
  }

  /** The pastes made for a sequence of requests, each with its time. */
  function Pasted(m: PasteMemo, requests: seq<(string, int)>): (ps: seq<(string, int)>)
    decreases |requests|
  {
    if requests == [] then []
    else
      var (ok, m') := SafePaste(m, requests[0].0, requests[0].1);
      (if ok then [requests[0]] else []) + Pasted(m', requests[1..])
  }

  predicate Nondecreasing(requests: seq<(string, int)>) {
    forall i, j :: 0 <= i < j < |requests| ==> requests[i].1 <= requests[j].1
  }

  /** Between two consecutive pastes of the same text at least a second passes, when the
      clock does not run backwards. */
  lemma {:induction false} RepeatedPastesSpaced(m: PasteMemo, requests: seq<(string, int)>)
    requires Nondecreasing(requests)
    requires forall i :: 0 <= i < |requests| ==> m.timestamp <= requests[i].1
    ensures var ps := Pasted(m, requests);
      && (|ps| > 0 && ps[0].0 == m.text ==> ps[0].1 - m.timestamp >= PasteDebounce)
      && forall k :: 0 <= k < |ps| - 1 && ps[k].0 == ps[k + 1].0 ==> ps[k + 1].1 - ps[k].1 >= PasteDebounce
    decreases |requests|
  {
    if requests != [] {
      var (ok, m') := SafePaste(m, requests[0].0, requests[0].1);
      var rest := requests[1..];
      assert Nondecreasing(rest);
      assert forall i :: 0 <= i < |rest| ==> m'.timestamp <= rest[i].1;
      RepeatedPastesSpaced(m', rest);
      var tail := Pasted(m', rest);
      var ps := Pasted(m, requests);
      if ok {
        assert ps == [requests[0]] + tail;
        assert m' == PasteMemo(requests[0].0, requests[0].1);
        forall k | 0 <= k < |ps| - 1 && ps[k].0 == ps[k + 1].0
          ensures ps[k + 1].1 - ps[k].1 >= PasteDebounce
        {
          if k > 0 {
            assert ps[k] == tail[k - 1] && ps[k + 1] == tail[k];
          }
        }
      } else {
        assert ps == tail;
      }
    }
  }

  /** A different text is always pasted. */
  lemma NewTextPasted(m: PasteMemo, text: string, now: int)
    requires text != m.text
    ensures SafePaste(m, text, now) == (true, PasteMemo(text, now))
  {
  }

  // ---------------------------------------------------------------------------
  // Completion callbacks

  /** The text areas of the main window. */
  datatype Shown = Shown(originalText: string, processedText: string, showTextArea: bool)

  /** `handleRecordingComplete`: a successful non-empty transcription is shown and the
      processed text cleared; anything else changes nothing. */
  function OnTranscription(v: Shown, success: bool, text: string): (r: Shown)
    ensures success && text != [] ==> r == Shown(text, [], true)
    ensures !(success && text != []) ==> r == v
  {
    if success && text != [] then Shown(text, [], true) else v
  }

  /** `handleAIOptimizationComplete`: the text shown and the text to paste. */
  function OnAiComplete(v: Shown, success: bool, enhancedByAi: bool, text: string): (r: (Shown, Option<string>))
    ensures success && enhancedByAi && text != [] ==> r == (v.(processedText := text), Some(text))
    ensures !(success && enhancedByAi && text != []) ==> r.0 == v
    ensures !(success && enhancedByAi && text != []) ==>
      r.1 == (if v.originalText != [] then Some(v.originalText) else None)
  {
    if success && enhancedByAi && text != [] then (v.(processedText := text), Some(text))
    else (v, if v.originalText != [] then Some(v.originalText) else None)
  }

  /** After a transcription is shown, an AI pass that did not improve it pastes the
      transcription itself. */
  lemma UnimprovedPastesTranscription(v: Shown, text: string, aiText: string)
    requires text != []
    ensures OnAiComplete(OnTranscription(v, true, text), true, false, aiText).1 == Some(text)
  {
  }
}
