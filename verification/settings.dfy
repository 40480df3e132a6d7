/** The settings window (src/settings.jsx): the form it edits, how it loads the stored
    settings into that form, the two presets, the "test configuration" guard and the
    save button.  Form values are JSON values because the stored settings come back
    through `JSON.parse`; the inputs write strings and the toggle writes a boolean.
 */
module Settings {
  import opened Wrappers
  import opened Text
  import opened Json
  import Database

  const DefaultBaseUrl: string := "https://api.openai.com/v1"
  const DefaultModel: string := "gpt-3.5-turbo"
  const DefaultHotkey: string := "CommandOrControl+Shift+Space"
  const RecommendedBaseUrl: string := "https://dashscope.aliyuncs.com/compatible-mode/v1"
  const RecommendedModel: string := "qwen3-30b-a3b-instruct-2507"

  /** The models offered in the drop-down; any other model counts as a custom one. */
  const PredefinedModels: seq<string> :=
    ["gpt-3.5-turbo", "gpt-4", "gpt-4-turbo", "gpt-4o", "gpt-4o-mini", "qwen3-30b-a3b-instruct-2507"]

  const MissingKeyError: string := "请先输入API密钥"
  const MissingKeyDetails: string := "API密钥不能为空"

  datatype Form = Form(apiKey: Json, baseUrl: Json, model: Json, enableAi: Json, hotkey: Json)

  /** The form's fields, each under the settings key it is stored as. */
  datatype Field = ApiKey | BaseUrl | Model | EnableAi | Hotkey

  const Fields: seq<Field> := [ApiKey, BaseUrl, Model, EnableAi, Hotkey]

  function Key(f: Field): string {
    match f
    case ApiKey => "ai_api_key"
    case BaseUrl => "ai_base_url"
    case Model => "ai_model"
    case EnableAi => "enable_ai_optimization"
    case Hotkey => "hotkey"
  }

  function Get(form: Form, f: Field): Json {
    match f
    case ApiKey => form.apiKey
    case BaseUrl => form.baseUrl
    case Model => form.model
    case EnableAi => form.enableAi
    case Hotkey => form.hotkey
  }

  /** The page state: the form and whether the custom-model input is shown. */
  datatype Page = Page(form: Form, customModel: bool)

  const InitialForm: Form :=
    Form(Str([]), Str(DefaultBaseUrl), Str(DefaultModel), Bool(true), Str(DefaultHotkey))

  const InitialPage: Page := Page(InitialForm, false)

  /** `!predefinedModels.includes(model)`: `includes` compares by value, so only a string
      can be predefined. */
  predicate IsCustomModel(model: Json) {
    !(model.Str? && model.s in PredefinedModels)
  }

  // ---------------------------------------------------------------------------
  // Loading

  /** `allSettings[key] || dflt`. */
  function Fallback(all: map<string, Json>, key: string, dflt: Json): (v: Json)
    ensures key in all && JsTruthy(all[key]) ==> v == all[key]
    ensures !(key in all && JsTruthy(all[key])) ==> v == dflt
  {
    if key in all && JsTruthy(all[key]) then all[key] else dflt
  }

  /** A form as loading leaves it: the key truthy or empty, the other text fields truthy
      and the toggle a boolean. */
  predicate Normal(form: Form) {
    && (JsTruthy(form.apiKey) || form.apiKey == Str([]))
    && JsTruthy(form.baseUrl) && JsTruthy(form.model) && JsTruthy(form.hotkey)
    && form.enableAi.Bool?
  }

  /** `loadSettings`: with the settings API present and answering, every field takes the
      stored value when it is truthy and its default otherwise, except the toggle, which
      is on unless stored as exactly `false`.  The custom-model flag follows the loaded
      model.  Without the API, or when the call fails, the page is left as it was. */
  function Load(page: Page, all: Option<map<string, Json>>): (r: Page)
    ensures all.None? ==> r == page
    ensures all.Some? ==> Normal(r.form) && JsTruthy(r.form.apiKey) == JsTruthyField(Find(all.value, Key(ApiKey)))
    ensures all.Some? ==> r.customModel == IsCustomModel(r.form.model)
    ensures all.Some? ==> (r.form.enableAi == Bool(false) <==> Find(all.value, Key(EnableAi)) == Some(Bool(false)))
    ensures all.Some? ==> forall f :: f != EnableAi && JsTruthyField(Find(all.value, Key(f))) ==>
      Get(r.form, f) == all.value[Key(f)]
  {
    match all
    case None => page
    case Some(m) =>
      var form := Form(
        Fallback(m, Key(ApiKey), Str([])),
        Fallback(m, Key(BaseUrl), Str(DefaultBaseUrl)),
        Fallback(m, Key(Model), Str(DefaultModel)),
        Bool(!(Key(EnableAi) in m && m[Key(EnableAi)] == Bool(false))),
        Fallback(m, Key(Hotkey), Str(DefaultHotkey)));
      Page(form, IsCustomModel(form.model))
  }

  /** The stored value under a key, if any. */
  function Find(all: map<string, Json>, key: string): Option<Json> {
    if key in all then Some(all[key]) else None
  }

  /** Loading from an empty settings table gives the initial form. */
  lemma LoadNothingGivesDefaults(page: Page)
    ensures Load(page, Some(map[])) == InitialPage
  {
    assert DefaultModel in PredefinedModels;
  }

  // ---------------------------------------------------------------------------
  // Editing

  /** `handleInputChange(key, value)`. */
  function Set(form: Form, f: Field, v: Json): (r: Form)
    ensures Get(r, f) == v
    ensures forall g :: g != f ==> Get(r, g) == Get(form, g)
  {
    match f
    case ApiKey => form.(apiKey := v)
    case BaseUrl => form.(baseUrl := v)
    case Model => form.(model := v)
    case EnableAi => form.(enableAi := v)
    case Hotkey => form.(hotkey := v)
  }

  /** Two forms agreeing on every field are the same form. */
  lemma FieldsDetermineForm(a: Form, b: Form)
    requires forall f :: Get(a, f) == Get(b, f)
    ensures a == b
  {
    assert Get(a, ApiKey) == Get(b, ApiKey) && Get(a, BaseUrl) == Get(b, BaseUrl);
    assert Get(a, Model) == Get(b, Model) && Get(a, EnableAi) == Get(b, EnableAi);
    assert Get(a, Hotkey) == Get(b, Hotkey);
  }

  /** Editing two different fields in either order gives the same form, and a second edit
      of a field overrides the first. */
  lemma EditsCommute(form: Form, f: Field, v: Json, g: Field, w: Json)
    ensures f != g ==> Set(Set(form, f, v), g, w) == Set(Set(form, g, w), f, v)
    ensures Set(Set(form, f, v), f, w) == Set(form, f, w)
  {
    if f != g {
      FieldsDetermineForm(Set(Set(form, f, v), g, w), Set(Set(form, g, w), f, v));
    }
    FieldsDetermineForm(Set(Set(form, f, v), f, w), Set(form, f, w));
  }

  /** Writing back a field's own value changes nothing. */
  lemma EditSameValue(form: Form, f: Field)
    ensures Set(form, f, Get(form, f)) == form
  {
    FieldsDetermineForm(Set(form, f, Get(form, f)), form);
  }

  /** The toggle's click handler: `handleInputChange('enable_ai_optimization', !value)`. */
  function Toggle(form: Form): (r: Form)
    ensures r.enableAi == Bool(!JsTruthy(form.enableAi))
    ensures forall g :: g != EnableAi ==> Get(r, g) == Get(form, g)
  {
    Set(form, EnableAi, Bool(!JsTruthy(form.enableAi)))
  }

  /** Two clicks on the toggle of a loaded form restore it. */
  lemma ToggleTwice(form: Form)
    requires form.enableAi.Bool?
    ensures Toggle(Toggle(form)) == form
  {
    FieldsDetermineForm(Toggle(Toggle(form)), form);
  }

  // ---------------------------------------------------------------------------
  // Presets

  /** `applyRecommendedConfig`. */
  function ApplyRecommended(page: Page): (r: Page)
    ensures r.form.baseUrl == Str(RecommendedBaseUrl) && r.form.model == Str(RecommendedModel)
    ensures forall g :: g !in {BaseUrl, Model} ==> Get(r.form, g) == Get(page.form, g)
    ensures r.customModel
  {
    Page(page.form.(baseUrl := Str(RecommendedBaseUrl), model := Str(RecommendedModel)), true)
  }

  /** `resetToOpenAI`. */
  function ResetToOpenAi(page: Page): (r: Page)
    ensures r.form.baseUrl == Str(DefaultBaseUrl) && r.form.model == Str(DefaultModel)
    ensures forall g :: g !in {BaseUrl, Model} ==> Get(r.form, g) == Get(page.form, g)
    ensures !r.customModel
  {
    Page(page.form.(baseUrl := Str(DefaultBaseUrl), model := Str(DefaultModel)), false)
  }

  /** After the OpenAI preset the custom-model flag agrees with the model, as loading
      would set it; after the recommended preset it does not, because the recommended
      model is one of the predefined ones.  Reopening the window after saving the
      recommended preset therefore shows the drop-down instead of the text input. */
  lemma PresetsAndLoadedFlag(page: Page)
    ensures ResetToOpenAi(page).customModel == IsCustomModel(ResetToOpenAi(page).form.model)
    ensures ApplyRecommended(page).customModel != IsCustomModel(ApplyRecommended(page).form.model)
  {
    assert PredefinedModels[0] == DefaultModel;
    assert PredefinedModels[5] == RecommendedModel;
  }

  /** The presets leave the key, the toggle and the hotkey alone, so applying one and then
      the other is the same as applying the second alone. */
  lemma LastPresetWins(page: Page)
    ensures ResetToOpenAi(ApplyRecommended(page)) == ResetToOpenAi(page)
    ensures ApplyRecommended(ResetToOpenAi(page)) == ApplyRecommended(page)
  {
  }

  // ---------------------------------------------------------------------------
  // Testing the configuration

  /** What `checkAIStatus` is called with. */
  datatype TestConfig = TestConfig(apiKey: string, baseUrl: string, model: string)

  /** The outcome of `testAIConfiguration` up to the call: the missing-key result, no
      call because the API is absent, the call with its configuration, or a `TypeError`
      from trimming a value that is not a string (reported as a failed test). */
  datatype TestOutcome = MissingKey(error: string, details: string) | NoApi | Call(config: TestConfig) | NotAString

  /** `value.trim() || dflt` on a string. */
  function TrimOr(s: string, dflt: string): (r: string)
    ensures r == dflt || IsStripOf(s, r, IsJsSpace)
    ensures dflt != [] ==> r != []
    ensures !IsBlank(s) ==> r == Trim(s)
  {
    if Trim(s) == [] then dflt else Trim(s)
  }

  function Test(form: Form, apiPresent: bool): (r: TestOutcome)
    ensures r.MissingKey? <==> form.apiKey.Str? && IsBlank(form.apiKey.s)
    ensures r.MissingKey? ==> r == MissingKey(MissingKeyError, MissingKeyDetails)
    ensures r.NoApi? <==> form.apiKey.Str? && !IsBlank(form.apiKey.s) && !apiPresent
    ensures r.Call? <==> && form.apiKey.Str? && !IsBlank(form.apiKey.s) && apiPresent
                         && form.baseUrl.Str? && form.model.Str?
    ensures r.Call? ==> && r.config.apiKey == Trim(form.apiKey.s)
                        && r.config.baseUrl == TrimOr(form.baseUrl.s, DefaultBaseUrl)
                        && r.config.model == TrimOr(form.model.s, DefaultModel)
  {
    if !form.apiKey.Str? then NotAString
    else if IsBlank(form.apiKey.s) then MissingKey(MissingKeyError, MissingKeyDetails)
    else if !apiPresent then NoApi
    else if !form.baseUrl.Str? || !form.model.Str? then NotAString
    else Call(TestConfig(Trim(form.apiKey.s), TrimOr(form.baseUrl.s, DefaultBaseUrl), TrimOr(form.model.s, DefaultModel)))
  }

  /** A trimmed text has nothing left to trim. */
  lemma TrimIdempotent(s: string)
    ensures Trim(Trim(s)) == Trim(s)
  {
    var r := Trim(s);
    assert DropLeading(r, IsJsSpace) == r;
    assert DropTrailing(r, IsJsSpace) == r;
  }

  /** A configuration that testing leaves as it is. */
  predicate Clean(c: TestConfig) {
    && !IsBlank(c.apiKey) && Trim(c.apiKey) == c.apiKey
    && TrimOr(c.baseUrl, DefaultBaseUrl) == c.baseUrl && TrimOr(c.model, DefaultModel) == c.model
  }

  /** The configuration sent is already clean: typing it back into the form and testing
      again sends exactly the same configuration. */
  lemma TestConfigStable(form: Form)
    requires Test(form, true).Call?
    ensures var c := Test(form, true).config;
      Test(form.(apiKey := Str(c.apiKey), baseUrl := Str(c.baseUrl), model := Str(c.model)), true) == Test(form, true)
  {
    var c := Test(form, true).config;
    SentConfigClean(form);
    CleanConfigSent(form, c);
  }

  lemma SentConfigClean(form: Form)
    requires Test(form, true).Call?
    ensures Clean(Test(form, true).config)
  {
    TrimIdempotent(form.apiKey.s);
    StripOfDefault(DefaultBaseUrl);
    StripOfDefault(DefaultModel);
    TrimOrStable(form.baseUrl.s, DefaultBaseUrl);
    TrimOrStable(form.model.s, DefaultModel);
  }

  lemma CleanConfigSent(form: Form, c: TestConfig)
    ensures Clean(c) ==>
      Test(form.(apiKey := Str(c.apiKey), baseUrl := Str(c.baseUrl), model := Str(c.model)), true) == Call(c)
  {
  }

  lemma TrimOrStable(s: string, d: string)
    requires Trim(d) == d && d != []
    ensures TrimOr(TrimOr(s, d), d) == TrimOr(s, d)
  {
    TrimIdempotent(s);
  }

  /** The defaults have no surrounding white space. */
  lemma StripOfDefault(d: string)
    requires d == DefaultBaseUrl || d == DefaultModel
    ensures Trim(d) == d
  {
    assert !IsJsSpace(d[0]) && !IsJsSpace(d[|d| - 1]);
    assert DropLeading(d, IsJsSpace) == d;
    assert DropTrailing(d, IsJsSpace) == d;
  }

  // ---------------------------------------------------------------------------
  // Saving

  /** The save button: disabled while saving or when the key is empty (not trimmed). */
  predicate SaveDisabled(saving: bool, form: Form) {
    saving || !JsTruthy(form.apiKey)
  }

  /** A key that passes the test's guard also enables saving; a key of spaces enables
      saving although the test refuses it. */
  lemma TestGuardStricterThanSave(form: Form)
    requires form.apiKey.Str?
    ensures !IsBlank(form.apiKey.s) ==> !SaveDisabled(false, form)
    ensures form.apiKey.s == " " ==> !SaveDisabled(false, form) && Test(form, true).MissingKey?
  {
    BlankIffAllSpace(form.apiKey.s);
  }

  /** `saveSettings` with the API present and every call succeeding: the five fields are
      written in order, then the hotkey is registered. */
  function Save(st: Database.Store, form: Form): (r: (Database.Store, Json))
    ensures r.0.rows == st.rows && r.0.nextId == st.nextId
    ensures r.0.settings.Keys == st.settings.Keys + {Key(ApiKey), Key(BaseUrl), Key(Model), Key(EnableAi), Key(Hotkey)}
    ensures r.1 == form.hotkey
  {
    var s1 := Database.SetSetting(st, Key(ApiKey), form.apiKey);
    var s2 := Database.SetSetting(s1, Key(BaseUrl), form.baseUrl);
    var s3 := Database.SetSetting(s2, Key(Model), form.model);
    var s4 := Database.SetSetting(s3, Key(EnableAi), form.enableAi);
    assert s2.settings.Keys == st.settings.Keys + {Key(ApiKey), Key(BaseUrl)};
    assert s3.settings.Keys == st.settings.Keys + {Key(ApiKey), Key(BaseUrl), Key(Model)};
    assert s4.settings.Keys == st.settings.Keys + {Key(ApiKey), Key(BaseUrl), Key(Model), Key(EnableAi)};
    (Database.SetSetting(s4, Key(Hotkey), form.hotkey), form.hotkey)
  }

  /** The toast a save button shows. */
  datatype Toast = SuccessToast(message: string) | ErrorToast(message: string)

  const HotkeySavedAndApplied: string := "快捷键已保存并生效"
  const HotkeySavedNotRegistered: string := "快捷键已保存，但注册失败"
  const HotkeySaved: string := "快捷键已保存"
  const HotkeySaveFailed: string := "保存快捷键失败"

  /** The hot key section's own save button: only the `hotkey` setting is written, then
      the key is handed on for registration when `registerHotkey` exists. `stored` says
      whether `setSetting` resolved and `registerThrew` whether `registerHotkey` threw; a
      registration that resolves is reported as applied whatever it answers. The result
      is the store, the key handed on, and the toast. */
  function SaveHotkey(st: Database.Store, form: Form, apiPresent: bool, stored: bool,
                      registerPresent: bool, registerThrew: bool): (r: (Database.Store, Option<Json>, Option<Toast>))
    ensures r.0.rows == st.rows && r.0.nextId == st.nextId
    ensures r.0.settings.Keys == st.settings.Keys + (if apiPresent && stored then {Key(Hotkey)} else {})
    ensures forall k :: k in st.settings && k != Key(Hotkey) ==> r.0.settings[k] == st.settings[k]
    ensures r.1.Some? <==> apiPresent && stored && registerPresent
    ensures r.1.Some? ==> r.1.value == form.hotkey
    ensures r.2.None? <==> !apiPresent
    ensures r.2.Some? && r.2.value.ErrorToast? <==> apiPresent && !stored
    ensures r.2 == Some(SuccessToast(HotkeySavedAndApplied)) <==> apiPresent && stored && registerPresent && !registerThrew
  {
    if !apiPresent then (st, None, None)
    else if !stored then (st, None, Some(ErrorToast(HotkeySaveFailed)))
    else
      var saved := Database.SetSetting(st, Key(Hotkey), form.hotkey);
      if registerPresent then
        (saved, Some(form.hotkey), Some(SuccessToast(if registerThrew then HotkeySavedNotRegistered else HotkeySavedAndApplied)))
      else (saved, None, Some(SuccessToast(HotkeySaved)))
  }

  /** The hot key button stores the hot key as the full save does, and every other
      setting reads back as before. */
  lemma SaveHotkeyAgreesWithSave(st: Database.Store, form: Form, other: string, registerPresent: bool, registerThrew: bool)
    requires ValidForm(form)
    ensures var hs := SaveHotkey(st, form, true, true, registerPresent, registerThrew).0;
      && Database.GetSetting(hs, Key(Hotkey), None) == Database.GetSetting(Save(st, form).0, Key(Hotkey), None) == form.hotkey
      && (other != Key(Hotkey) ==> Database.GetSetting(hs, other, None) == Database.GetSetting(st, other, None))
  {
    SavedFieldReadsBack(st, form, Hotkey);
    Database.SettingRoundTrip(st, Key(Hotkey), form.hotkey, other, None);
  }

  predicate ValidForm(form: Form) {
    Valid(form.apiKey) && Valid(form.baseUrl) && Valid(form.model) && Valid(form.enableAi) && Valid(form.hotkey)
  }

  /** Every field reads back from the store as it was saved. */
  lemma SavedFieldReadsBack(st: Database.Store, form: Form, f: Field)
    requires ValidForm(form)
    ensures Database.GetSetting(Save(st, form).0, Key(f), None) == Get(form, f)
  {
    var s1 := Database.SetSetting(st, Key(ApiKey), form.apiKey);
    var s2 := Database.SetSetting(s1, Key(BaseUrl), form.baseUrl);
    var s3 := Database.SetSetting(s2, Key(Model), form.model);
    var s4 := Database.SetSetting(s3, Key(EnableAi), form.enableAi);
    var k := Key(f);
    assert Save(st, form).0 == Database.SetSetting(s4, Key(Hotkey), form.hotkey);
    KeysDistinct(f);
    if f == Hotkey {
      Database.SettingRoundTrip(s4, Key(Hotkey), form.hotkey, k, None);
    } else {
      Database.SettingRoundTrip(s4, Key(Hotkey), form.hotkey, k, None);
      if f == EnableAi {
        Database.SettingRoundTrip(s3, Key(EnableAi), form.enableAi, k, None);
      } else {
        Database.SettingRoundTrip(s3, Key(EnableAi), form.enableAi, k, None);
        if f == Model {
          Database.SettingRoundTrip(s2, Key(Model), form.model, k, None);
        } else {
          Database.SettingRoundTrip(s2, Key(Model), form.model, k, None);
          Database.SettingRoundTrip(s1, Key(BaseUrl), form.baseUrl, k, None);
          Database.SettingRoundTrip(st, Key(ApiKey), form.apiKey, k, None);
        }
      }
    }
  }

  /** Different fields are stored under different keys. */
  lemma KeysDistinct(f: Field)
    ensures forall g :: g != f ==> Key(g) != Key(f)
  {
  }

  /** Saving a loaded form and loading it again shows the same form, whatever the store
      held before. */
  lemma SaveThenLoad(st: Database.Store, page: Page, form: Form)
    requires ValidForm(form) && Normal(form)
    ensures Load(page, Some(Database.AllSettings(Save(st, form).0))).form == form
  {
    var saved := Save(st, form).0;
    var all := Database.AllSettings(saved);
    forall f ensures Key(f) in all && all[Key(f)] == Get(form, f) {
      KeySaved(st, form, f);
      SavedFieldReadsBack(st, form, f);
      Database.AllSettingsAgree(saved, Key(f), None);
    }
    LoadFormSettings(page, all, form);
  }

  lemma KeySaved(st: Database.Store, form: Form, f: Field)
    ensures Key(f) in Save(st, form).0.settings
  {
    match f
    case ApiKey =>
    case BaseUrl =>
    case Model =>
    case EnableAi =>
    case Hotkey =>
  }

  /** Loading settings that hold a normal form's fields gives that form back. */
  lemma LoadFormSettings(page: Page, all: map<string, Json>, form: Form)
    requires Normal(form)
    requires forall f :: Key(f) in all && all[Key(f)] == Get(form, f)
    ensures Load(page, Some(all)).form == form
  {
    assert all[Key(ApiKey)] == form.apiKey && all[Key(BaseUrl)] == form.baseUrl;
    assert all[Key(Model)] == form.model && all[Key(Hotkey)] == form.hotkey;
    assert all[Key(EnableAi)] == form.enableAi;
  }
}
