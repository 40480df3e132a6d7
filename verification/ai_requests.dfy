/** The chat-completion requests of the application: `processTextWithAI` and
    `checkAIStatus` in the main process (src/helpers/ipcHandlers.js) and the renderer's
    own `callAIAPI` (src/hooks/useTextProcessing.js), which the hook defines but never
    calls and does not return.

    The HTTP exchange is replaced by its inputs and outputs: each operation returns the
    request it would send (or none) together with its reply, given the server's answer.
    Stored settings are JSON values as the settings table returns them.  Where the code
    reads a property of `null` or `undefined` the JavaScript engine throws a `TypeError`
    whose wording is the engine's; that wording is an input (`typeError`).
 */
module AiRequests {
  import opened Wrappers
  import opened Text
  import opened Json

  const DefaultBaseUrl: string := "https://api.openai.com/v1"
  const DefaultModel: string := "gpt-3.5-turbo"
  const NoKeyMessage: string := "请先在设置页面配置AI API密钥"
  const MalformedMessage: string := "AI API返回数据格式错误"
  const RendererMalformedMessage: string := "API返回数据格式错误"
  const UnknownError: string := "未知错误"

  /** The prompt templates a request can carry (the texts themselves are not modelled). */
  datatype Prompt = Format | Correct | Optimize | OptimizeLong | Summarize | Enhance | AsrEnhance

  datatype Request = Request(url: string, apiKey: string, model: string, prompt: Prompt, text: string)

  /** The server's answer: an HTTP error with its body text, a successful JSON body, or a
      failure of `fetch` itself. */
  datatype Response =
    | HttpError(status: int, statusText: string, body: string)
    | HttpOk(data: Json)
    | NetworkFailure(message: string)

  /** What the main process's text processing resolves with. */
  datatype AiReply = Optimized(text: string, model: string) | AiFailed(error: string)

  type Settings = map<string, Json>

  function Setting(settings: Settings, key: string): Option<Json> {
    if key in settings then Some(settings[key]) else None
  }

  // ---------------------------------------------------------------------------
  // JavaScript conversions

  /** `x || fallback` for a setting shown as text. */
  function TextOr(v: Option<Json>, fallback: string): (r: string)
    ensures JsTruthyField(v) ==> r == JsText(v.value)
    ensures !JsTruthyField(v) ==> r == fallback
  {
    if JsTruthyField(v) then JsText(v.value) else fallback
  }

  /** `x[0]` for a JSON value: the first element, the first character, or the member
      named "0"; None is `undefined`. */
  function First(v: Json): Option<Json> {
    match v
    case Arr(items) => if items == [] then None else Some(items[0])
    case Str(s) => if s == [] then None else Some(Str([s[0]]))
    case Obj(_) => Get(v, "0")
    case _ => None
  }

  /** `x.length > 0` as JavaScript evaluates it for the value kinds without a `length`
      member of their own. */
  predicate NonEmptyList(v: Json) {
    (v.Arr? && v.items != []) || (v.Str? && v.s != [])
  }

  // ---------------------------------------------------------------------------
  // Prompt choice

  /** `prompts[mode] || prompts.optimize` in the main process. */
  function MainPrompt(mode: string): (p: Prompt)
    ensures p == Optimize <==> mode !in {"format", "correct", "optimize_long", "summarize", "enhance"}
  {
    if mode == "format" then Format
    else if mode == "correct" then Correct
    else if mode == "optimize_long" then OptimizeLong
    else if mode == "summarize" then Summarize
    else if mode == "enhance" then Enhance
    else Optimize
  }

  /** The same choice in the renderer, whose table has `asr_enhance` instead of
      `enhance`. */
  function RendererPrompt(mode: string): (p: Prompt)
    ensures p == Optimize <==> mode !in {"format", "correct", "optimize_long", "summarize", "asr_enhance"}
  {
    if mode == "format" then Format
    else if mode == "correct" then Correct
    else if mode == "optimize_long" then OptimizeLong
    else if mode == "summarize" then Summarize
    else if mode == "asr_enhance" then AsrEnhance
    else Optimize
  }

  /** The mode named by each prompt of the main table. */
  function MainModeName(p: Prompt): string {
    match p
    case Format => "format"
    case Correct => "correct"
    case Optimize => "optimize"
    case OptimizeLong => "optimize_long"
    case Summarize => "summarize"
    case Enhance => "enhance"
    case AsrEnhance => "optimize"
  }

  // ---------------------------------------------------------------------------
  // Reading the server's answer

  /** What a thrown HTTP error says: the body's `error.message`, else its `error`, else
      `fallback` followed by the status.  A body that is not JSON counts as
      `{error: body || statusText}`; a body that is JSON `null` makes the property read
      throw. */
  function HttpErrorText(status: int, statusText: string, body: string, fallback: string,
                         typeError: string): (m: string)
    ensures Parse(body) == Some(Null) ==> m == typeError
    ensures Parse(body).None? && body != [] ==> m == body
  {
    ErrorTextOf(Parse(body), status, statusText, body, fallback, typeError)
  }

  /** The message chosen once the body has been parsed (or has failed to parse). */
  function ErrorTextOf(parsed: Option<Json>, status: int, statusText: string, body: string,
                       fallback: string, typeError: string): (m: string)
    ensures parsed == Some(Null) ==> m == typeError
    ensures parsed.None? && body != [] ==> m == body
  {
    if parsed == Some(Null) then typeError
    else
      var e := if parsed.None? then Some(Str(if body != [] then body else statusText))
               else Get(parsed.value, "error");
      if e.Some? && e.value.Obj? && JsTruthyField(Get(e.value, "message")) then
        JsText(Get(e.value, "message").value)
      else if JsTruthyField(e) then JsText(e.value)
      else fallback + IntToString(status)
  }

  /** The first choice's `message.content.trim()`, or the `TypeError` it throws when a
      link of that chain is missing or the content is not text. */
  function FirstChoiceText(choices: Json, typeError: string): (r: Result<string>)
    ensures r.Success? ==> r.value == [] || (!IsJsSpace(r.value[0]) && !IsJsSpace(r.value[|r.value| - 1]))
  {
    var first := First(choices);
    if first.None? || first.value.Null? then Failure(typeError)
    else
      var msg := Get(first.value, "message");
      if msg.None? || msg.value.Null? then Failure(typeError)
      else match Get(msg.value, "content")
        case Some(Str(c)) => Success(Trim(c))
        case _ => Failure(typeError)
  }

  /** The catch block of `processTextWithAI`: none of the errors it receives carries a
      `response` or `code`, so the message passes through unless it is empty. */
  function ProcessCatch(message: string): (m: string)
    ensures message != [] ==> m == message
    ensures message == [] ==> m == UnknownError
  {
    if message != [] then message else UnknownError
  }

  // ---------------------------------------------------------------------------
  // processTextWithAI

  /** The request the main process sends for `text` in `mode`, when a key is stored. */
  function MainRequest(settings: Settings, text: string, mode: string): (q: Option<Request>)
    ensures q.Some? <==> JsTruthyField(Setting(settings, "ai_api_key"))
  {
    var key := Setting(settings, "ai_api_key");
    if !JsTruthyField(key) then None
    else Some(Request(TextOr(Setting(settings, "ai_base_url"), DefaultBaseUrl) + "/chat/completions",
                      JsText(key.value), TextOr(Setting(settings, "ai_model"), DefaultModel),
                      MainPrompt(mode), text))
  }

  /** How the main process reads the server's answer for a request under `model`. */
  function MainReply(model: string, response: Response, typeError: string): (r: AiReply)
    ensures r.Optimized? ==> r.model == model && response.HttpOk?
    ensures response.NetworkFailure? ==> r == AiFailed(ProcessCatch(response.message))
  {
    match response
    case NetworkFailure(m) => AiFailed(ProcessCatch(m))
    case HttpError(status, statusText, body) =>
      AiFailed(ProcessCatch(HttpErrorText(status, statusText, body, "API error: ", typeError)))
    case HttpOk(data) =>
      if data.Null? then AiFailed(ProcessCatch(typeError))
      else
        var choices := Get(data, "choices");
        if choices.Some? && NonEmptyList(choices.value) then
          match FirstChoiceText(choices.value, typeError)
          case Success(t) => Optimized(t, model)
          case Failure(m) => AiFailed(ProcessCatch(m))
        else AiFailed(MalformedMessage)
  }

  /** `processTextWithAI(text, mode)` given the server's answer. */
  function ProcessTextWithAI(settings: Settings, text: string, mode: string, response: Response,
                             typeError: string): (r: (Option<Request>, AiReply))
    ensures r.0 == MainRequest(settings, text, mode)
    ensures r.0.None? ==> r.1 == AiFailed(NoKeyMessage)
    ensures r.0.Some? ==> r.1 == MainReply(r.0.value.model, response, typeError)
  {
    var request := MainRequest(settings, text, mode);
    if request.None? then (None, AiFailed(NoKeyMessage))
    else (request, MainReply(request.value.model, response, typeError))
  }

  // ---------------------------------------------------------------------------
  // checkAIStatus

  /** The result object of `checkAIStatus`. */
  datatype Status =
    | Available(model: string, response: string, details: string)
    | Unavailable(error: string, details: string)

  const NoKeyStatus: Status := Unavailable("未配置API密钥", "请输入AI API密钥")

  /** The fixed message chosen for an HTTP status, if any. */
  function StatusOverride(status: int): Option<string> {
    if status == 401 then Some("API密钥无效或已过期")
    else if status == 403 then Some("API密钥权限不足")
    else if status == 429 then Some("API调用频率超限")
    else if status == 500 then Some("AI服务器内部错误")
    else None
  }

  /** The catch block of `checkAIStatus`: the first of six substrings found in the
      message picks a fixed message; otherwise the message passes through. */
  function StatusCatch(message: string): (m: string)
    ensures (&& !Contains(message, "401") && !Contains(message, "403") && !Contains(message, "429")
             && !Contains(message, "ENOTFOUND") && !Contains(message, "ECONNREFUSED")
             && !Contains(message, "timeout") && message != []) ==> m == message
  {
    if Contains(message, "401") then "API密钥无效"
    else if Contains(message, "403") then "API密钥权限不足"
    else if Contains(message, "429") then "API调用频率超限"
    else if Contains(message, "ENOTFOUND") then "无法连接到AI服务器，请检查网络和Base URL"
    else if Contains(message, "ECONNREFUSED") then "连接被拒绝，请检查Base URL是否正确"
    else if Contains(message, "timeout") then "请求超时，请检查网络连接"
    else if message != [] then message
    else UnknownError
  }

  function Thrown(message: string): Status {
    Unavailable(StatusCatch(message), "测试失败原因: " + message)
  }

  /** The settings `checkAIStatus` uses: a truthy test configuration replaces the saved
      ones entirely. */
  function StatusSettings(testConfig: Option<Json>, settings: Settings): (r: (Option<Json>, string, string))
    ensures JsTruthyField(testConfig) ==> r.0 == Get(testConfig.value, "ai_api_key")
    ensures !JsTruthyField(testConfig) ==> r.0 == Setting(settings, "ai_api_key")
  {
    if JsTruthyField(testConfig) then
      var c := testConfig.value;
      (Get(c, "ai_api_key"), TextOr(Get(c, "ai_base_url"), DefaultBaseUrl), TextOr(Get(c, "ai_model"), DefaultModel))
    else
      (Setting(settings, "ai_api_key"), TextOr(Setting(settings, "ai_base_url"), DefaultBaseUrl),
       TextOr(Setting(settings, "ai_model"), DefaultModel))
  }

  /** The reply text of a successful test: `choices[0].message?.content || ''`. */
  function TestReplyText(choices: Json, typeError: string): Result<string> {
    var first := First(choices);
    if first.None? || first.value.Null? then Failure(typeError)
    else
      var msg := Get(first.value, "message");
      if msg.None? || msg.value.Null? then Success([])
      else
        var content := Get(msg.value, "content");
        Success(if JsTruthyField(content) then JsText(content.value) else [])
  }

  /** `x.length === 0` for the value kinds the model gives a length. */
  predicate EmptyList(v: Json) {
    (v.Arr? && v.items == []) || (v.Str? && v.s == [])
  }

  /** How the status test reads the server's answer for a request under `model`. */
  function StatusOf(model: string, response: Response, typeError: string): (r: Status)
    ensures r.Available? ==> response.HttpOk? && r.model == model
    ensures response.NetworkFailure? ==> r == Thrown(response.message)
  {
    match response
    case NetworkFailure(m) => Thrown(m)
    case HttpError(code, statusText, body) =>
      if Parse(body) == Some(Null) then Thrown(typeError)
      else Thrown(StatusOverride(code).GetOr(HttpErrorText(code, statusText, body, "HTTP ", typeError)))
    case HttpOk(data) =>
      if data.Null? then Thrown(typeError)
      else
        var choices := Get(data, "choices");
        if !JsTruthyField(choices) || EmptyList(choices.value) then
          Thrown("AI API返回格式异常：缺少choices字段")
        else match TestReplyText(choices.value, typeError)
          case Failure(m) => Thrown(m)
          case Success(t) => Available(model, t, "成功连接到 " + model + "，响应时间正常")
  }

  /** `checkAIStatus(testConfig)` given the server's answer: whether a request is sent,
      and the result.  The request carries a fixed test message, not modelled. */
  function CheckAIStatus(testConfig: Option<Json>, settings: Settings, response: Response,
                         typeError: string): (r: (bool, Status))
    ensures var (key, _, model) := StatusSettings(testConfig, settings);
      && (r.0 <==> JsTruthyField(key))
      && (!r.0 ==> r.1 == NoKeyStatus)
      && (r.0 ==> r.1 == StatusOf(model, response, typeError))
  {
    var (key, _, model) := StatusSettings(testConfig, settings);
    if !JsTruthyField(key) then (false, NoKeyStatus)
    else (true, StatusOf(model, response, typeError))
  }

  // ---------------------------------------------------------------------------
  // callAIAPI (renderer)

  /** How the renderer reads the server's answer: a thrown error is a Failure. */
  function RendererResult(response: Response, typeError: string): (r: Result<string>)
    ensures response.NetworkFailure? ==> r == Failure(response.message)
  {
    match response
    case NetworkFailure(m) => Failure(m)
    case HttpError(status, _, body) =>
      // `response.json().catch(() => ({}))`: a body that is not JSON reads as {}
      RendererErrorOf(Parse(body).GetOr(Obj([])), status, typeError)
    case HttpOk(data) =>
      if data.Null? then Failure(typeError)
      else
        var choices := Get(data, "choices");
        if choices.Some? && NonEmptyList(choices.value) then FirstChoiceText(choices.value, typeError)
        else Failure(RendererMalformedMessage)
  }

  /** The renderer's failure for an HTTP error once the body has been read. */
  function RendererErrorOf(parsed: Json, status: int, typeError: string): Result<string> {
    if parsed.Null? then Failure(typeError)
    else
      var e := Get(parsed, "error");
      if e.Some? && e.value.Obj? && JsTruthyField(Get(e.value, "message")) then
        Failure(JsText(Get(e.value, "message").value))
      else Failure("API请求失败: " + IntToString(status))
  }

  /** The renderer's `callAIAPI(text, mode)`. Nothing calls it: the hook returns only
      `handleTranscription`, `isProcessing` and `error`. */
  function CallAIAPI(settings: Settings, text: string, mode: string, response: Response,
                     typeError: string): (r: (Option<Request>, Result<string>))
    ensures r.0.None? <==> !JsTruthyField(Setting(settings, "ai_api_key"))
    ensures r.0.None? ==> r.1 == Failure(NoKeyMessage)
    ensures r.0.Some? ==> r.0.value.prompt == RendererPrompt(mode) && r.1 == RendererResult(response, typeError)
  {
    var key := Setting(settings, "ai_api_key");
    if !JsTruthyField(key) then (None, Failure(NoKeyMessage))
    else
      var request := Request(TextOr(Setting(settings, "ai_base_url"), DefaultBaseUrl) + "/chat/completions",
                             JsText(key.value), TextOr(Setting(settings, "ai_model"), DefaultModel),
                             RendererPrompt(mode), text);
      (Some(request), RendererResult(response, typeError))
  }

  // ---------------------------------------------------------------------------
  // Properties

  /** No stored key: no request, and the fixed reply. */
  lemma NoKeyNoRequest(settings: Settings, text: string, mode: string, response: Response, typeError: string)
    requires !JsTruthyField(Setting(settings, "ai_api_key"))
    ensures ProcessTextWithAI(settings, text, mode, response, typeError) == (None, AiFailed(NoKeyMessage))
    ensures CallAIAPI(settings, text, mode, response, typeError) == (None, Failure(NoKeyMessage))
  {
  }

  /** With a key and nothing else stored, the request goes to the default endpoint with
      the default model and the key as text. */
  lemma DefaultsApply(key: string, text: string, mode: string)
    requires key != []
    ensures MainRequest(map["ai_api_key" := Str(key)], text, mode)
            == Some(Request(DefaultBaseUrl + "/chat/completions", key, DefaultModel, MainPrompt(mode), text))
  {
  }

  /** Every mode of the main table selects its own prompt and every other mode the
      optimize prompt; the two tables agree except on `enhance` and `asr_enhance`. */
  lemma PromptChoice(mode: string)
    ensures MainPrompt(mode) != Optimize ==> MainModeName(MainPrompt(mode)) == mode
    ensures mode !in {"enhance", "asr_enhance"} ==> MainPrompt(mode) == RendererPrompt(mode)
    ensures MainPrompt("asr_enhance") == Optimize && RendererPrompt("enhance") == Optimize
  {
  }

  /** A first choice with text content succeeds with that content trimmed, under the
      request's model, in both places. */
  lemma ChoiceContentTrimmed(model: string, content: string, rest: seq<Json>, typeError: string)
    ensures var data := Obj([Member("choices", Arr([ChoiceWith(content)] + rest))]);
      && MainReply(model, HttpOk(data), typeError) == Optimized(Trim(content), model)
      && RendererResult(HttpOk(data), typeError) == Success(Trim(content))
  {
    MainChoiceContent(model, content, rest, typeError);
    RendererChoiceContent(content, rest, typeError);
  }

  lemma MainChoiceContent(model: string, content: string, rest: seq<Json>, typeError: string)
    ensures var data := Obj([Member("choices", Arr([ChoiceWith(content)] + rest))]);
      MainReply(model, HttpOk(data), typeError) == Optimized(Trim(content), model)
  {
    var choices := Arr([ChoiceWith(content)] + rest);
    var data := Obj([Member("choices", choices)]);
    ChoicesFound(choices);
    FirstChoiceWith(content, rest, typeError);
    assert !data.Null? && NonEmptyList(choices);
    assert MainReply(model, HttpOk(data), typeError) == Optimized(Trim(content), model);
  }

  lemma RendererChoiceContent(content: string, rest: seq<Json>, typeError: string)
    ensures var data := Obj([Member("choices", Arr([ChoiceWith(content)] + rest))]);
      RendererResult(HttpOk(data), typeError) == Success(Trim(content))
  {
    var choices := Arr([ChoiceWith(content)] + rest);
    ChoicesFound(choices);
    FirstChoiceWith(content, rest, typeError);
  }

  lemma ChoicesFound(choices: Json)
    ensures Get(Obj([Member("choices", choices)]), "choices") == Some(choices)
  {
    LookupUnique([Member("choices", choices)], 0);
  }

  /** `{"message": {"content": content}}`. */
  function ChoiceWith(content: string): Json {
    Obj([Member("message", Obj([Member("content", Str(content))]))])
  }

  lemma FirstChoiceWith(content: string, rest: seq<Json>, typeError: string)
    ensures FirstChoiceText(Arr([ChoiceWith(content)] + rest), typeError) == Success(Trim(content))
  {
    var msg := Obj([Member("content", Str(content))]);
    var choice := ChoiceWith(content);
    LookupUnique(choice.members, 0);
    LookupUnique(msg.members, 0);
    assert First(Arr([choice] + rest)) == Some(choice);
  }

  /** An empty `choices` list is the format error in both places. */
  lemma EmptyChoicesMalformed(model: string, typeError: string)
    ensures var data := Obj([Member("choices", Arr([]))]);
      && MainReply(model, HttpOk(data), typeError) == AiFailed(MalformedMessage)
      && RendererResult(HttpOk(data), typeError) == Failure(RendererMalformedMessage)
      && StatusOf(model, HttpOk(data), typeError) == Thrown("AI API返回格式异常：缺少choices字段")
  {
    var data := Obj([Member("choices", Arr([]))]);
    LookupUnique(data.members, 0);
  }

  /** An HTTP error whose body is `{"error": {"message": message}}` is reported with
      that message in both places (such a body is what `Serialize` writes, by
      `Json.ParseSerialize`). */
  lemma HttpErrorMessagePasses(model: string, status: int, statusText: string, body: string,
                               message: string, typeError: string)
    requires message != []
    ensures Parse(body) == Some(ErrorBody(message)) ==>
      && MainReply(model, HttpError(status, statusText, body), typeError) == AiFailed(message)
      && RendererResult(HttpError(status, statusText, body), typeError) == Failure(message)
  {
    if Parse(body) == Some(ErrorBody(message)) {
      MainHttpErrorMessage(model, status, statusText, body, message, typeError);
      RendererHttpErrorMessage(status, statusText, body, message, typeError);
    }
  }

  lemma MainHttpErrorMessage(model: string, status: int, statusText: string, body: string,
                             message: string, typeError: string)
    requires message != []
    ensures Parse(body) == Some(ErrorBody(message)) ==>
      MainReply(model, HttpError(status, statusText, body), typeError) == AiFailed(message)
  {
    if Parse(body) == Some(ErrorBody(message)) {
      ErrorBodyText(message, status, statusText, body, typeError);
      var t := HttpErrorText(status, statusText, body, "API error: ", typeError);
      assert t == message;
    }
  }

  lemma RendererHttpErrorMessage(status: int, statusText: string, body: string,
                                 message: string, typeError: string)
    requires message != []
    ensures Parse(body) == Some(ErrorBody(message)) ==>
      RendererResult(HttpError(status, statusText, body), typeError) == Failure(message)
  {
    if Parse(body) == Some(ErrorBody(message)) {
      ErrorBodyRenderer(message, status, typeError);
      assert Parse(body).GetOr(Obj([])) == ErrorBody(message);
    }
  }

  lemma ErrorBodyText(message: string, status: int, statusText: string, body: string, typeError: string)
    requires message != []
    ensures ErrorTextOf(Some(ErrorBody(message)), status, statusText, body, "API error: ", typeError) == message
  {
    ErrorBodyMessage(message);
  }

  lemma ErrorBodyRenderer(message: string, status: int, typeError: string)
    requires message != []
    ensures RendererErrorOf(ErrorBody(message), status, typeError) == Failure(message)
  {
    ErrorBodyMessage(message);
  }

  /** `{"error": {"message": message}}`. */
  function ErrorBody(message: string): Json {
    Obj([Member("error", Obj([Member("message", Str(message))]))])
  }

  lemma ErrorBodyMessage(message: string)
    ensures Get(ErrorBody(message), "error") == Some(Obj([Member("message", Str(message))]))
    ensures Get(Obj([Member("message", Str(message))]), "message") == Some(Str(message))
  {
    var e := Obj([Member("message", Str(message))]);
    LookupUnique(ErrorBody(message).members, 0);
    LookupUnique(e.members, 0);
  }

  /** A status test with no key refuses without a request. */
  lemma StatusWithoutKey(testConfig: Option<Json>, settings: Settings, response: Response, typeError: string)
    requires !JsTruthyField(StatusSettings(testConfig, settings).0)
    ensures CheckAIStatus(testConfig, settings, response, typeError) == (false, NoKeyStatus)
  {
  }

  /** The fixed messages for 401, 403, 429 and 500 reach the caller unchanged: none of
      them contains a substring the catch block looks for. */
  lemma StatusOverridesSurvive(model: string, status: int, statusText: string, body: string,
                               typeError: string)
    requires status in {401, 403, 429, 500}
    ensures var fixed := StatusOverride(status).value;
      Parse(body) != Some(Null) ==>
        StatusOf(model, HttpError(status, statusText, body), typeError) == Unavailable(fixed, "测试失败原因: " + fixed)
  {
    var fixed := StatusOverride(status).value;
    FixedMessagesPass(fixed);
  }

  lemma FixedMessagesPass(fixed: string)
    requires fixed in {"API密钥无效或已过期", "API密钥权限不足", "API调用频率超限", "AI服务器内部错误"}
    ensures StatusCatch(fixed) == fixed
  {
    if fixed == "API密钥无效或已过期" {
      PassesCatch(fixed);
    } else if fixed == "API密钥权限不足" {
      PassesCatch(fixed);
    } else if fixed == "API调用频率超限" {
      PassesCatch(fixed);
    } else {
      PassesCatch(fixed);
    }
  }

  /** A non-empty message without '4', 'E' or 't' passes the status catch block as is. */
  lemma PassesCatch(m: string)
    requires m != [] && forall i :: 0 <= i < |m| ==> m[i] != '4' && m[i] != 'E' && m[i] != 't'
    ensures StatusCatch(m) == m
  {
    LacksChar(m, "401");
    LacksChar(m, "403");
    LacksChar(m, "429");
    LacksChar(m, "ENOTFOUND");
    LacksChar(m, "ECONNREFUSED");
    LacksChar(m, "timeout");
  }

  /** A text without the first character of `pat` does not contain `pat`. */
  lemma LacksChar(s: string, pat: string)
    requires pat != [] && forall i :: 0 <= i < |s| ==> s[i] != pat[0]
    ensures !Contains(s, pat)
  {
    forall k ensures !OccursAt(s, pat, k) {
      if 0 <= k && k + |pat| <= |s| {
        assert s[k..k + |pat|][0] == s[k];
      }
    }
  }

  /** A network failure in the status test names the substring it matched. */
  lemma StatusCatchMapping(m: string)
    ensures Contains(m, "401") ==> StatusCatch(m) == "API密钥无效"
    ensures !Contains(m, "401") && Contains(m, "403") ==> StatusCatch(m) == "API密钥权限不足"
    ensures !Contains(m, "401") && !Contains(m, "403") && !Contains(m, "429") && Contains(m, "ENOTFOUND")
            ==> StatusCatch(m) == "无法连接到AI服务器，请检查网络和Base URL"
  {
  }

  /** A successful test names the model and carries the reply text. */
  lemma StatusSuccess(model: string, reply: string, typeError: string)
    requires reply != []
    ensures var data := Obj([Member("choices", Arr([Obj([Member("message", Obj([Member("content", Str(reply))]))])]))]);
      StatusOf(model, HttpOk(data), typeError) == Available(model, reply, "成功连接到 " + model + "，响应时间正常")
  {
    var msg := Obj([Member("content", Str(reply))]);
    var choice := Obj([Member("message", msg)]);
    var data := Obj([Member("choices", Arr([choice]))]);
    LookupUnique(data.members, 0);
    LookupUnique(choice.members, 0);
    LookupUnique(msg.members, 0);
  }

  /** `String` of an integer is its decimal numeral. */
  lemma JsTextOfInt(i: int)
    ensures JsText(Int(i)) == IntToString(i)
  {
    assert DropTrailing([], IsZeroDigit) == [];
    if i < 0 {
      assert Int(i) == Num(true, -i, []);
      assert -i != 0;
    } else {
      assert Int(i) == Num(false, i, []);
    }
  }
}
