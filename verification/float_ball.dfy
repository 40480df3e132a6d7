/** The float ball window's decisions (src/floatBall.jsx): its displayed status, and what
    a click, an F2 double-click and the custom hotkey do.  The recording hook's flags and
    the model's readiness are inputs.
 */
module FloatBall {
  import ModelStatus

  const NotReadyMessage: string := "模型未就绪"
  const ModelErrorFallback: string := "模型错误"

  datatype BallStatus = Idle | Recording | Processing | Error

  /** The recording hook's three flags. */
  datatype Flags = Flags(isRecording: bool, isProcessing: bool, isOptimizing: bool)

  /** The status effect: recording, else processing (processing or optimizing), else error
      while an error message is set, else idle. */
  function StatusOf(f: Flags, errorMessage: string): (s: BallStatus)
    ensures s == Recording <==> f.isRecording
    ensures s == Processing <==> !f.isRecording && (f.isProcessing || f.isOptimizing)
    ensures s == Error <==> !f.isRecording && !f.isProcessing && !f.isOptimizing && errorMessage != []
  {
    if f.isRecording then Recording
    else if f.isProcessing || f.isOptimizing then Processing
    else if errorMessage != [] then Error
    else Idle
  }

  /** The model-status effect: an error stage sets the message (the model's error, or a
      fixed text). */
  function ModelErrorMessage(s: ModelStatus.Status, errorMessage: string): (m: string)
    ensures s.stage == ModelStatus.Failed ==> m != []
    ensures s.stage != ModelStatus.Failed ==> m == errorMessage
  {
    if s.stage == ModelStatus.Failed then
      (if s.error.Some? && s.error.value != [] then s.error.value else ModelErrorFallback)
    else errorMessage
  }

  datatype Action = Start | Stop | NoAction | Refuse(message: string)

  /** Starting is allowed when the model is ready and nothing is being processed. */
  predicate CanStart(isReady: bool, f: Flags) {
    isReady && !f.isProcessing && !f.isOptimizing
  }

  /** `handleClick`: a model that is not ready refuses; otherwise recording stops, and a
      ball with nothing in progress starts. */
  function Click(isReady: bool, f: Flags): (a: Action)
    ensures !isReady ==> a == Refuse(NotReadyMessage)
    ensures isReady && f.isRecording ==> a == Stop
    ensures a == Start <==> CanStart(isReady, f) && !f.isRecording
  {
    if !isReady then Refuse(NotReadyMessage)
    else if f.isRecording then Stop
    else if !f.isProcessing && !f.isOptimizing then Start
    else NoAction
  }

  /** The F2 double-click handler: 'start' starts when allowed; 'stop' stops a recording.
      'start' does not look at whether a recording is already running. */
  function F2DoubleClick(action: string, isReady: bool, f: Flags): (a: Action)
    ensures a == Start <==> action == "start" && CanStart(isReady, f)
    ensures a == Stop <==> action == "stop" && f.isRecording
    ensures !a.Refuse?
  {
    if action == "start" then (if CanStart(isReady, f) then Start else NoAction)
    else if action == "stop" then (if f.isRecording then Stop else NoAction)
    else NoAction
  }

  /** The custom hotkey: stop a recording, else start when allowed.  Unlike a click it
      stops even when the model is no longer ready. */
  function Hotkey(isReady: bool, f: Flags): (a: Action)
    ensures f.isRecording ==> a == Stop
    ensures !f.isRecording ==> (a == Start <==> CanStart(isReady, f))
    ensures !a.Refuse?
  {
    if f.isRecording then Stop
    else if CanStart(isReady, f) then Start
    else NoAction
  }

  /** With a ready model the hotkey and a click do the same. */
  lemma HotkeyIsClickWhenReady(f: Flags)
    ensures Hotkey(true, f) == Click(true, f)
  {
  }

  /** When the double-click's action follows the recording flag ('stop' exactly while
      recording, as the hotkey manager decides it), F2 does what the hotkey does. */
  lemma F2AgreesWithHotkey(isReady: bool, f: Flags)
    ensures F2DoubleClick(if f.isRecording then "stop" else "start", isReady, f) == Hotkey(isReady, f)
  {
  }

  /** A refused click shows the error status once nothing else is going on. */
  lemma RefusedClickShowsError(f: Flags)
    requires !f.isRecording && !f.isProcessing && !f.isOptimizing
    ensures var a := Click(false, f);
      a.Refuse? && StatusOf(f, a.message) == Error
  {
  }
}
