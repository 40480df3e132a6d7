/** The renderer's text-processing hook (src/hooks/useTextProcessing.js): the choice of
    processing mode by text length, and the save of a transcription with its optional
    AI-processed text.

    The IPC calls are replaced by their answers, given as inputs.
 */
module TextProcessing {
  import opened Wrappers
  import opened Text
  import AiRequests

  const LongTextChars: nat := 150
  const LongTextWords: nat := 30
  const EmptyTextError: string := "转录文本内容不能为空"
  const AiFailedError: string := "AI文本优化失败"
  const AiThrewError: string := "AI处理过程中发生未知错误"
  const SaveThrewError: string := "保存转录数据时发生未知错误"

  // ---------------------------------------------------------------------------
  // Word count

  /** JavaScript `s.split(/\s+/)`: the pieces between maximal runs of white space; a
      leading or trailing run gives an empty first or last piece. */
  function SplitWs(s: string): (parts: seq<string>)
    ensures |parts| >= 1
    decreases |s|
  {
    if s == [] then [[]]
    else if IsJsSpace(s[0]) then [[]] + SplitWs(DropLeading(s[1..], IsJsSpace))
    else
      var rest := SplitWs(s[1..]);
      [[s[0]] + rest[0]] + rest[1..]
  }

  /** `text.trim().split(/\s+/).length`. */
  function WordCount(text: string): nat {
    |SplitWs(Trim(text))|
  }

  /** `determineProcessingMode(text, userMode)`. The length is JavaScript's, in UTF-16
      code units. */
  function DetermineMode(text: string, userMode: string): (mode: string)
    ensures userMode != "auto" ==> mode == userMode
    ensures userMode == "auto" ==>
      (mode == "optimize_long" <==> Utf16Length(Trim(text)) > LongTextChars || WordCount(text) > LongTextWords)
    ensures userMode == "auto" && |Trim(text)| > LongTextChars ==> mode == "optimize_long"
    ensures userMode == "auto" ==> mode in {"optimize", "optimize_long"}
  {
    if userMode != "auto" then userMode
    else if Utf16Length(Trim(text)) > LongTextChars || WordCount(text) > LongTextWords then "optimize_long"
    else "optimize"
  }

  // ---------------------------------------------------------------------------
  // handleTranscription

  /** What `processText` resolved with: an object with `success`, `text` and `error`,
      nothing (`null`), or a rejection. */
  datatype AiAnswer =
    | Answer(success: bool, text: string, error: string)
    | NoAnswer
    | Threw(message: string)

  /** What `saveTranscription` did. */
  datatype SaveAnswer = SavedRow(lastInsertRowid: int) | SaveThrew(message: string)

  /** The record sent to the store. */
  datatype Record = Record(text: string, rawText: string, processedText: Option<string>)

  /** The hook's effects: the mode sent to the AI (if it was asked), the record saved (if
      the store was asked), the value returned, and the error state left behind. */
  datatype Handled = Handled(
    aiMode: Option<string>,
    saved: Option<Record>,
    returned: Option<(Record, int)>,
    error: Option<string>)

  /** `text || fallback` for a text. */
  function OrElse(text: string, fallback: string): string {
    if text != [] then text else fallback
  }

  /** The record and the AI error, given the AI's answer. */
  function WithAnswer(raw: string, ai: AiAnswer): (r: (Record, Option<string>))
    ensures r.0.rawText == raw
    ensures r.0.text == raw || (ai.Answer? && ai.success && r.0.text == ai.text)
    ensures r.1.None? <==> ai.Answer? && ai.success
  {
    match ai
    case Answer(success, t, e) =>
      if success then
        (Record(if t != [] && Trim(t) != Trim(raw) then t else raw, raw, Some(t)), None)
      else (Record(raw, raw, None), Some(OrElse(e, AiFailedError)))
    case NoAnswer => (Record(raw, raw, None), Some(AiFailedError))
    case Threw(m) => (Record(raw, raw, None), Some(OrElse(m, AiThrewError)))
  }

  /** `handleTranscription({raw_text, ...}, useAI)`. */
  function HandleTranscription(raw: string, useAI: bool, ai: AiAnswer, save: SaveAnswer): (h: Handled)
    ensures IsBlank(raw) ==> h == Handled(None, None, None, Some(EmptyTextError))
    ensures !IsBlank(raw) ==> h.saved.Some? && h.saved.value.rawText == raw
    ensures h.returned.Some? <==> !IsBlank(raw) && save.SavedRow?
    ensures h.returned.Some? ==> h.returned.value == (h.saved.value, save.lastInsertRowid)
    ensures h.aiMode.Some? <==> !IsBlank(raw) && useAI
    ensures h.aiMode.Some? ==> h.aiMode.value == DetermineMode(raw, "auto")
  {
    if IsBlank(raw) then Handled(None, None, None, Some(EmptyTextError))
    else
      var mode := if useAI then Some(DetermineMode(raw, "auto")) else None;
      var (record, aiError) := if useAI then WithAnswer(raw, ai) else (Record(raw, raw, None), None);
      match save
      case SavedRow(id) => Handled(mode, Some(record), Some((record, id)), aiError)
      case SaveThrew(m) => Handled(mode, Some(record), None, Some(OrElse(m, SaveThrewError)))
  }

  // ---------------------------------------------------------------------------
  // Properties

  /** Words without white space, joined by single spaces, count as themselves. */
  lemma {:induction false} SplitWsJoin(words: seq<string>)
    requires |words| >= 1
    requires forall i :: 0 <= i < |words| ==> words[i] != [] && NoSpace(words[i])
    ensures SplitWs(Join(words, " ")) == words
    decreases |words|
  {
    if |words| == 1 {
      SplitWsNoSpace(words[0]);
    } else {
      var tail := Join(words[1..], " ");
      SplitWsJoin(words[1..]);
      JoinStartsWith(words[1..]);
      SplitWsPrefix(words[0], tail);
      assert Join(words, " ") == words[0] + ([' '] + tail);
      assert [words[0]] + words[1..] == words;
    }
  }

  predicate NoSpace(w: string) {
    forall i :: 0 <= i < |w| ==> !IsJsSpace(w[i])
  }

  lemma {:induction false} SplitWsNoSpace(w: string)
    requires NoSpace(w)
    ensures SplitWs(w) == [w]
    decreases |w|
  {
    if w != [] {
      SplitWsNoSpace(w[1..]);
      assert [w[0]] + w[1..] == w;
    }
  }

  lemma {:induction false} SplitWsPrefix(w: string, t: string)
    requires NoSpace(w)
    requires t == [] || !IsJsSpace(t[0])
    ensures SplitWs(w + ([' '] + t)) == [w] + SplitWs(t)
    decreases |w|
  {
    if w == [] {
      assert w + ([' '] + t) == [' '] + t;
      assert ([' '] + t)[1..] == t;
    } else {
      assert (w + ([' '] + t))[1..] == w[1..] + ([' '] + t);
      SplitWsPrefix(w[1..], t);
      assert [w[0]] + w[1..] == w;
    }
  }

  /** A join of non-empty words starts with the first word's first character and ends
      with the last word's last character. */
  lemma {:induction false} JoinStartsWith(words: seq<string>)
    requires |words| >= 1 && forall i :: 0 <= i < |words| ==> words[i] != []
    ensures var s := Join(words, " ");
      s != [] && s[0] == words[0][0] && s[|s| - 1] == words[|words| - 1][|words[|words| - 1]| - 1]
    decreases |words|
  {
    if |words| > 1 {
      JoinStartsWith(words[1..]);
    }
  }

  /** The word count of words joined by spaces is the number of words. */
  lemma WordCountOfWords(words: seq<string>)
    requires |words| >= 1
    requires forall i :: 0 <= i < |words| ==> words[i] != [] && NoSpace(words[i])
    ensures WordCount(Join(words, " ")) == |words|
  {
    JoinStartsWith(words);
    var last := words[|words| - 1];
    assert !IsJsSpace(last[|last| - 1]);
    TrimNoop(Join(words, " "));
    SplitWsJoin(words);
  }

  /** Thirty-one one-word-long pieces make a long text even when it is short in
      characters. */
  lemma ManyWordsAreLong(words: seq<string>)
    requires |words| > LongTextWords
    requires forall i :: 0 <= i < |words| ==> words[i] != [] && NoSpace(words[i])
    ensures DetermineMode(Join(words, " "), "auto") == "optimize_long"
  {
    WordCountOfWords(words);
  }

  /** Seventy-six characters outside the Basic Multilingual Plane (emoji, or ideographs
      of CJK Extension B such as 𠮷) are one word of 76 characters but 152 UTF-16 units,
      so `auto` picks the long mode. */
  lemma AstralTextIsLong(text: string)
    requires |text| == 76 && forall i :: 0 <= i < |text| ==> IsAstral(text[i])
    ensures Trim(text) == text && Utf16Length(text) == 152
    ensures DetermineMode(text, "auto") == "optimize_long"
  {
    assert IsAstral(text[0]) && IsAstral(text[75]);
    TrimNoop(text);
    Utf16LengthCounts(text);
  }

  /** On a text without astral characters the length test counts characters. */
  lemma BmpTextCountsCharacters(text: string)
    requires forall i :: 0 <= i < |text| ==> !IsAstral(text[i])
    ensures DetermineMode(text, "auto") == "optimize_long" <==>
      |Trim(text)| > LongTextChars || WordCount(text) > LongTextWords
  {
    TrimOfBmp(text);
    Utf16LengthCounts(Trim(text));
  }

  /** Trimming keeps a text free of astral characters. */
  lemma TrimOfBmp(text: string)
    requires forall i :: 0 <= i < |text| ==> !IsAstral(text[i])
    ensures forall i :: 0 <= i < |Trim(text)| ==> !IsAstral(Trim(text)[i])
  {
    var r := Trim(text);
    var k :| StripAt(text, r, IsJsSpace, k);
    forall i | 0 <= i < |r| ensures !IsAstral(r[i]) {
      assert r[i] == text[k..k + |r|][i] == text[k + i];
    }
  }

  /** A blank text is refused without asking the AI or the store. */
  lemma BlankRejected(raw: string, useAI: bool, ai: AiAnswer, save: SaveAnswer)
    requires AllSatisfy(raw, IsJsSpace)
    ensures HandleTranscription(raw, useAI, ai, save) == Handled(None, None, None, Some(EmptyTextError))
  {
    BlankIffAllSpace(raw);
  }

  /** The saved text is the AI's only when the AI succeeded with a non-empty text that
      differs from the raw text after trimming; otherwise it is the raw text. */
  lemma FinalTextChoice(raw: string, ai: AiAnswer, save: SaveAnswer)
    requires !IsBlank(raw)
    ensures var saved := HandleTranscription(raw, true, ai, save).saved.value;
      && (ai.Answer? && ai.success && ai.text != [] && Trim(ai.text) != Trim(raw) ==> saved.text == ai.text)
      && (!(ai.Answer? && ai.success && ai.text != [] && Trim(ai.text) != Trim(raw)) ==> saved.text == raw)
      && (saved.processedText.Some? <==> ai.Answer? && ai.success)
  {
  }

  /** A failed AI call leaves its error but the raw text is still saved and returned with
      its row id. */
  lemma AiFailureStillSaved(raw: string, ai: AiAnswer, id: int)
    requires !IsBlank(raw) && !(ai.Answer? && ai.success)
    ensures var h := HandleTranscription(raw, true, ai, SavedRow(id));
      && h.error.Some? && h.error.value != []
      && h.returned == Some((Record(raw, raw, None), id))
  {
  }

  /** Without the AI the raw text is saved as is and no mode is chosen. */
  lemma WithoutAiRawSaved(raw: string, ai: AiAnswer, id: int)
    requires !IsBlank(raw)
    ensures HandleTranscription(raw, false, ai, SavedRow(id))
            == Handled(None, Some(Record(raw, raw, None)), Some((Record(raw, raw, None), id)), None)
  {
  }

  /** A long transcription is sent with the mode whose prompt in the main process is the
      long-text prompt. */
  lemma LongTextsGetLongPrompt(raw: string, ai: AiAnswer, save: SaveAnswer)
    requires Utf16Length(Trim(raw)) > LongTextChars
    ensures var h := HandleTranscription(raw, true, ai, save);
      h.aiMode.Some? && AiRequests.MainPrompt(h.aiMode.value) == AiRequests.OptimizeLong
  {
    assert !IsBlank(raw);
    var m := DetermineMode(raw, "auto");
    assert m == "optimize_long";
    LongPromptChosen(m);
  }

  lemma LongPromptChosen(m: string)
    requires m == "optimize_long"
    ensures AiRequests.MainPrompt(m) == AiRequests.OptimizeLong
  {
    assert m != "format" && m != "correct";
  }
}
