/** The local store (src/helpers/database.js): the validation and normalisation in front
    of the transcriptions table, the newest-first listing, and the settings table that
    keeps every value as JSON text.  The SQLite tables are a value; the clock that fills
    `created_at` is an input.
 */
module Database {
  import opened Wrappers
  import opened Text
  import opened Json

  const InvalidData: string := "转录数据无效"
  const EmptyText: string := "转录文本不能为空"
  /** What JavaScript throws for `text.trim()` when `text` is not a string. */
  const TrimNotAFunction: string := "text.trim is not a function"
  const DefaultLanguage: string := "zh-CN"
  const DefaultLimit: nat := 50

  /** The columns written for one transcription. */
  datatype Entry = Entry(text: string, rawText: Json, processedText: Json, confidence: Json,
                         language: Json, duration: Json, fileSize: Json)

  datatype Row = Row(id: nat, entry: Entry, createdAt: int)

  /** The rows in insertion order, the next row id, and each setting's stored text. */
  datatype Store = Store(rows: seq<Row>, nextId: nat, settings: map<string, string>)

  const Empty: Store := Store([], 1, map[])

  // ---------------------------------------------------------------------------
  // saveTranscription

  /** `a || b` over a possibly absent field. */
  function OrElse(a: Option<Json>, b: Json): (r: Json)
    ensures JsTruthyField(a) ==> r == a.value
    ensures !JsTruthyField(a) ==> r == b
  {
    if JsTruthyField(a) then a.value else b
  }

  /** The text chosen for the row: `data.text || data.raw_text || ''`. */
  function ChosenText(data: Json): Json {
    OrElse(Get(data, "text"), OrElse(Get(data, "raw_text"), Str([])))
  }

  /** The row written for an accepted record: its trimmed text, and every other column
      from the record or its default. */
  function Columns(data: Json, text: string): (e: Entry)
    ensures e.text == text
    ensures e.rawText == OrElse(Get(data, "raw_text"), Null)
    ensures e.processedText == OrElse(Get(data, "processed_text"), Null)
    ensures e.confidence == OrElse(Get(data, "confidence"), Int(0))
    ensures e.language == OrElse(Get(data, "language"), Str(DefaultLanguage))
    ensures e.duration == OrElse(Get(data, "duration"), Int(0))
    ensures e.fileSize == OrElse(Get(data, "file_size"), Int(0))
  {
    Entry(text, OrElse(Get(data, "raw_text"), Null), OrElse(Get(data, "processed_text"), Null),
          OrElse(Get(data, "confidence"), Int(0)), OrElse(Get(data, "language"), Str(DefaultLanguage)),
          OrElse(Get(data, "duration"), Int(0)), OrElse(Get(data, "file_size"), Int(0)))
  }

  // ---------------------------------------------------------------------------
  // Binding the arguments of `stmt.run`

  /** The insert statement's anonymous parameters. */
  const Parameters: nat := 7

  /** What better-sqlite3 throws while binding: a value of another type, more values than
      parameters, fewer, and a second object of named parameters. */
  const BindTypeError: string := "SQLite3 can only bind numbers, strings, bigints, buffers, and null"
  const TooManyValues: string := "Too many parameter values were provided"
  const TooFewValues: string := "Too few parameter values were provided"
  const TwoNamedBags: string := "You cannot specify named parameters in two different objects"

  /** The values better-sqlite3 binds: numbers, strings and null. */
  predicate Bindable(v: Json) {
    v.Null? || v.Num? || v.Str?
  }

  /** One binding step: a value for the next anonymous parameter, or an object of named
      parameters. */
  datatype Slot = Value(v: Json) | NamedBag

  /** How better-sqlite3 reads the arguments of `run`: an array gives each of its elements
      as a value, a plain object is an object of named parameters, and anything else is
      one value. */
  function Slots(args: seq<Json>): seq<Slot> {
    if args == [] then [] else SlotsOf(args[0]) + Slots(args[1..])
  }

  /** The slots one argument gives. */
  function SlotsOf(arg: Json): (r: seq<Slot>)
    ensures !arg.Arr? && !arg.Obj? ==> r == [Value(arg)]
    ensures arg.Obj? ==> r == [NamedBag]
    ensures arg.Arr? ==> |r| == |arg.items| && forall i :: 0 <= i < |r| ==> r[i] == Value(arg.items[i])
  {
    match arg
    case Arr(items) => Spread(items)
    case Obj(_) => [NamedBag]
    case _ => [Value(arg)]
  }

  /** An array argument: each element a value, in order. */
  function Spread(items: seq<Json>): (r: seq<Slot>)
    ensures |r| == |items| && forall i :: 0 <= i < |items| ==> r[i] == Value(items[i])
  {
    if items == [] then [] else [Value(items[0])] + Spread(items[1..])
  }

  /** Arguments that are neither arrays nor objects give one value each, in order; they
      all bind exactly when each is a number, a string or null. */
  lemma {:induction false} ScalarSlots(args: seq<Json>)
    requires forall i :: 0 <= i < |args| ==> !args[i].Arr? && !args[i].Obj?
    ensures var sl := Slots(args);
      && |sl| == |args| && AllValues(sl) && BagCount(sl) == 0 && Values(sl) == args
      && (AllBindable(sl) <==> forall i :: 0 <= i < |args| ==> Bindable(args[i]))
  {
    if args != [] {
      var rest := args[1..];
      ScalarSlots(rest);
      var sl := Slots(args);
      assert sl == [Value(args[0])] + Slots(rest);
      assert sl[1..] == Slots(rest);
      assert args == [args[0]] + rest;
      assert (forall i :: 0 <= i < |args| ==> Bindable(args[i]))
        <==> Bindable(args[0]) && forall i :: 0 <= i < |rest| ==> Bindable(rest[i]) by {
        assert forall i :: 1 <= i < |args| ==> args[i] == rest[i - 1];
      }
    }
  }

  /** The values among the slots, in order. */
  function Values(slots: seq<Slot>): seq<Json> {
    if slots == [] then []
    else (if slots[0].Value? then [slots[0].v] else []) + Values(slots[1..])
  }

  function BagCount(slots: seq<Slot>): nat {
    if slots == [] then 0 else (if slots[0].NamedBag? then 1 else 0) + BagCount(slots[1..])
  }

  /** Whether every value among the slots binds. */
  predicate AllBindable(slots: seq<Slot>) {
    slots == [] || ((slots[0].Value? ==> Bindable(slots[0].v)) && AllBindable(slots[1..]))
  }

  /** Whether every slot is a value: no object of named parameters. */
  predicate AllValues(slots: seq<Slot>) {
    slots == [] || (slots[0].Value? && AllValues(slots[1..]))
  }

  /** Binding the slots in order after `bound` values and, when `bag`, one object of
      named parameters. The statement names no parameter, so an object binds nothing.
      Binding succeeds exactly when every value binds, there is at most one object and
      the values fill the seven parameters exactly. */
  function Bind(slots: seq<Slot>, bound: seq<Json>, bag: bool): (r: Result<seq<Json>>)
    requires |bound| <= Parameters
    ensures r.Success? <==>
      && AllBindable(slots)
      && BagCount(slots) + (if bag then 1 else 0) <= 1
      && |bound| + |Values(slots)| == Parameters
    ensures r.Success? ==> r.value == bound + Values(slots)
    ensures r.Failure? ==> r.error in {BindTypeError, TooManyValues, TooFewValues, TwoNamedBags}
    ensures AllValues(slots) && |bound| + |slots| == Parameters && r.Failure? ==> r.error == BindTypeError
    decreases |slots|
  {
    if slots == [] then
      if |bound| < Parameters then Failure(TooFewValues) else Success(bound)
    else
      var rest := slots[1..];
      match slots[0]
      case NamedBag =>
        assert Values(slots) == Values(rest) && BagCount(slots) == 1 + BagCount(rest);
        assert AllBindable(slots) == AllBindable(rest) && !AllValues(slots);
        if bag then Failure(TwoNamedBags) else Bind(rest, bound, true)
      case Value(v) =>
        assert Values(slots) == [v] + Values(rest) && BagCount(slots) == BagCount(rest);
        assert AllBindable(slots) == (Bindable(v) && AllBindable(rest));
        assert AllValues(slots) == AllValues(rest);
        if !Bindable(v) then Failure(BindTypeError)
        else if |bound| == Parameters then Failure(TooManyValues)
        else
          var r := Bind(rest, bound + [v], bag);
          assert bound + [v] + Values(rest) == bound + Values(slots);
          r
  }

  /** The arguments of `stmt.run` after the trimmed text, in order. */
  function Optional(e: Entry): (args: seq<Json>)
    ensures |args| == Parameters - 1
  {
    [e.rawText, e.processedText, e.confidence, e.language, e.duration, e.fileSize]
  }

  /** Whether better-sqlite3 binds the arguments: the text, always a string, takes the
      first parameter, so the rest must fill the other six. */
  predicate Binds(e: Entry) {
    var slots := Slots(Optional(e));
    AllBindable(slots) && BagCount(slots) <= 1 && |Values(slots)| == Parameters - 1
  }

  /** `stmt.run(...)`: the row better-sqlite3 writes from the arguments, or what it throws. */
  function Insert(e: Entry): (r: Result<Entry>)
    ensures r.Success? <==> Binds(e)
    ensures r.Success? ==> r.value.text == e.text && Optional(r.value) == Values(Slots(Optional(e)))
    ensures r.Failure? ==> r.error in {BindTypeError, TooManyValues, TooFewValues, TwoNamedBags}
    ensures var sl := Slots(Optional(e));
      |sl| == Parameters - 1 && AllValues(sl) && r.Failure? ==> r.error == BindTypeError
  {
    var r := Bind(Slots(Optional(e)), [Str(e.text)], false);
    if r.Failure? then Failure(r.error) else Success(Written(e.text, r.value))
  }

  /** The row whose text is `text` and whose other columns are the bound values after
      the first. */
  function Written(text: string, vs: seq<Json>): (row: Entry)
    requires |vs| == Parameters
    ensures row.text == text && Optional(row) == vs[1..]
  {
    Entry(text, vs[1], vs[2], vs[3], vs[4], vs[5], vs[6])
  }

  /** Arguments that are all numbers, strings or null are written as they are. */
  lemma PlainColumnsInserted(e: Entry)
    ensures (forall i :: 0 <= i < Parameters - 1 ==> Bindable(Optional(e)[i])) ==> Insert(e) == Success(e)
  {
    var args := Optional(e);
    if forall i :: 0 <= i < Parameters - 1 ==> Bindable(args[i]) {
      ScalarSlots(args);
      var r := Insert(e);
      assert Optional(r.value) == Optional(e);
    }
  }

  /** The checks of `saveTranscription`.  `data` is an object or an array (both have type
      'object'); anything else is refused. An accepted text is inserted with the other
      columns, which better-sqlite3 may still refuse to bind. */
  function Normalise(data: Json): (r: Result<Entry>)
    ensures !(data.Obj? || data.Arr?) ==> r == Failure(InvalidData)
    ensures (data.Obj? || data.Arr?) && ChosenText(data).Str? && IsBlank(ChosenText(data).s) ==> r == Failure(EmptyText)
    ensures (data.Obj? || data.Arr?) && !ChosenText(data).Str? ==> r == Failure(TrimNotAFunction)
    ensures (data.Obj? || data.Arr?) && ChosenText(data).Str? && !IsBlank(ChosenText(data).s) ==>
      r == Insert(Columns(data, Trim(ChosenText(data).s)))
    ensures r.Success? ==>
      (&& ChosenText(data).Str? && !IsBlank(ChosenText(data).s)
       && Binds(Columns(data, Trim(ChosenText(data).s)))
       && r.value.text == Trim(ChosenText(data).s))
  {
    if !(data.Obj? || data.Arr?) then Failure(InvalidData)
    else
      match ChosenText(data)
      case Str(s) =>
        if s == [] || Trim(s) == [] then Failure(EmptyText)
        else Insert(Columns(data, Trim(s)))
      case _ => Failure(TrimNotAFunction)
  }

  /** `saveTranscription`: the store with the new row, and the row's id. */
  function Save(st: Store, data: Json, now: int): (r: Result<(Store, nat)>)
    ensures Normalise(data).Failure? ==> r == Failure(Normalise(data).error)
    ensures r.Success? ==>
      (&& r.value.0.rows == st.rows + [Row(st.nextId, Normalise(data).value, now)]
       && r.value.1 == st.nextId
       && r.value.0.nextId > st.nextId
       && r.value.0.settings == st.settings)
  {
    match Normalise(data)
    case Failure(e) => Failure(e)
    case Success(entry) => Success((Store(st.rows + [Row(st.nextId, entry, now)], st.nextId + 1, st.settings), st.nextId))
  }

  /** A record with a text field that is not blank is stored trimmed when better-sqlite3
      binds its columns, and otherwise refused by the binder with nothing written. */
  lemma SaveTrimsText(st: Store, ms: seq<Member>, i: nat, s: string, now: int)
    requires i < |ms| && ms[i] == Member("text", Str(s))
    requires forall j :: i < j < |ms| ==> ms[j].key != "text"
    ensures !IsBlank(s) && Binds(Columns(Obj(ms), Trim(s))) ==>
      && Save(st, Obj(ms), now).Success?
      && Save(st, Obj(ms), now).value.0.rows[|st.rows|].entry.text == Trim(s)
    ensures !IsBlank(s) && !Binds(Columns(Obj(ms), Trim(s))) ==>
      && Save(st, Obj(ms), now).Failure?
      && Save(st, Obj(ms), now).error in {BindTypeError, TooManyValues, TooFewValues, TwoNamedBags}
  {
    if !IsBlank(s) {
      TextFieldChosen(ms, i, s);
      NormaliseStr(Obj(ms), s);
      SavedRow(st, Obj(ms), now);
    }
  }

  /** The row a successful save appends. */
  lemma SavedRow(st: Store, data: Json, now: int)
    ensures Save(st, data, now).Success? ==>
      && |Save(st, data, now).value.0.rows| == |st.rows| + 1
      && Save(st, data, now).value.0.rows[|st.rows|] == Row(st.nextId, Normalise(data).value, now)
  {
    if Save(st, data, now).Success? {
      var rows := Save(st, data, now).value.0.rows;
      assert rows == st.rows + [Row(st.nextId, Normalise(data).value, now)];
    }
  }

  lemma TextFieldChosen(ms: seq<Member>, i: nat, s: string)
    requires i < |ms| && ms[i] == Member("text", Str(s))
    requires forall j :: i < j < |ms| ==> ms[j].key != "text"
    ensures !IsBlank(s) ==> ChosenText(Obj(ms)) == Str(s)
  {
    if !IsBlank(s) {
      LookupLast(ms, i);
      NotBlankNonEmpty(s);
      assert Get(Obj(ms), "text") == Some(Str(s));
      assert JsTruthyField(Some(Str(s)));
    }
  }

  lemma EmptyIsBlank()
    ensures IsBlank([])
  {
  }

  lemma NotBlankNonEmpty(s: string)
    requires !IsBlank(s)
    ensures s != []
  {
    if s == [] { EmptyIsBlank(); }
  }

  /** A chosen text that is not blank is accepted, trimmed. */
  lemma NormaliseStr(data: Json, s: string)
    requires data.Obj? && ChosenText(data) == Str(s)
    ensures !IsBlank(s) ==> Normalise(data) == Insert(Columns(data, Trim(s)))
    ensures !IsBlank(s) && Binds(Columns(data, Trim(s))) ==>
      Normalise(data).Success? && Normalise(data).value.text == Trim(s)
  {
  }

  /** A record whose only text is in `raw_text` is stored under that text, with the
      default language and zero measures. */
  lemma RawTextFallback(s: string)
    ensures var r := Normalise(Obj([Member("raw_text", Str(s))]));
      !IsBlank(s) ==>
      && r.Success?
      && r.value.text == Trim(s) && r.value.rawText == Str(s) && r.value.processedText == Null
      && r.value.language == Str(DefaultLanguage) && r.value.confidence == Int(0)
  {
    if !IsBlank(s) {
      var ms := [Member("raw_text", Str(s))];
      RawFields(s);
      NormaliseStr(Obj(ms), s);
      RawColumnsInserted(s);
    }
  }

  /** The columns of a record holding only a non-blank `raw_text` bind as they are. */
  lemma RawColumnsInserted(s: string)
    requires !IsBlank(s)
    ensures var e := Columns(Obj([Member("raw_text", Str(s))]), Trim(s));
      && e == Entry(Trim(s), Str(s), Null, Int(0), Str(DefaultLanguage), Int(0), Int(0))
      && Insert(e) == Success(e)
  {
    RawColumns(s);
    DefaultsInserted(Trim(s), s);
  }

  lemma RawColumns(s: string)
    requires !IsBlank(s)
    ensures Columns(Obj([Member("raw_text", Str(s))]), Trim(s))
      == Entry(Trim(s), Str(s), Null, Int(0), Str(DefaultLanguage), Int(0), Int(0))
  {
    RawFields(s);
    NotBlankNonEmpty(s);
    assert JsTruthyField(Some(Str(s)));
  }

  /** A text and a raw text with every other column defaulted bind as they are. */
  lemma DefaultsInserted(text: string, raw: string)
    ensures var e := Entry(text, Str(raw), Null, Int(0), Str(DefaultLanguage), Int(0), Int(0));
      Insert(e) == Success(e)
  {
    var e := Entry(text, Str(raw), Null, Int(0), Str(DefaultLanguage), Int(0), Int(0));
    assert Int(0) == Num(false, 0, []);
    assert forall i :: 0 <= i < Parameters - 1 ==> Bindable(Optional(e)[i]);
    PlainColumnsInserted(e);
  }

  lemma RawFields(s: string)
    ensures var data := Obj([Member("raw_text", Str(s))]);
      && (!IsBlank(s) ==> ChosenText(data) == Str(s))
      && Get(data, "raw_text") == Some(Str(s))
      && Get(data, "processed_text").None? && Get(data, "language").None? && Get(data, "confidence").None?
      && Get(data, "duration").None? && Get(data, "file_size").None?
  {
    var ms := [Member("raw_text", Str(s))];
    LookupUnique(ms, 0);
    AbsentKey(ms, "text");
    AbsentKey(ms, "processed_text");
    AbsentKey(ms, "language");
    AbsentKey(ms, "confidence");
    AbsentKey(ms, "duration");
    AbsentKey(ms, "file_size");
    if !IsBlank(s) {
      NotBlankNonEmpty(s);
      assert JsTruthyField(Some(Str(s)));
    }
  }

  /** A record such as `{text: "a", confidence: true}` passes the checks, but `true` is no
      value SQLite can bind: the save throws and nothing is written. */
  lemma BooleanColumnRefused(st: Store, t: string, now: int)
    requires t != [] && !IsJsSpace(t[0]) && !IsJsSpace(t[|t| - 1])
    ensures Save(st, Obj([Member("text", Str(t)), Member("confidence", Bool(true))]), now)
      == Failure(BindTypeError)
  {
    var e := Entry(t, Null, Null, Bool(true), Str(DefaultLanguage), Int(0), Int(0));
    TwoFieldColumns(t, Bool(true));
    assert Optional(e)[2] == Bool(true);
    ScalarColumnsInserted(e);
  }

  /** A record such as `{text: "a", confidence: [5]}` is saved: better-sqlite3 spreads the
      array, so the row holds 5. */
  lemma ArrayColumnSpread(st: Store, t: string, x: Json, now: int)
    requires t != [] && !IsJsSpace(t[0]) && !IsJsSpace(t[|t| - 1])
    requires Bindable(x)
    ensures var r := Save(st, Obj([Member("text", Str(t)), Member("confidence", Arr([x]))]), now);
      r.Success? && r.value.0.rows[|st.rows|].entry.confidence == x
  {
    var data := Obj([Member("text", Str(t)), Member("confidence", Arr([x]))]);
    TwoFieldColumns(t, Arr([x]));
    SpreadSlots(Entry(t, Null, Null, Arr([x]), Str(DefaultLanguage), Int(0), Int(0)), x);
    SavedRow(st, data, now);
  }

  /** The columns of `{text: t, confidence: v}` for a truthy `v`. */
  lemma TwoFieldColumns(t: string, v: Json)
    requires t != [] && !IsJsSpace(t[0]) && !IsJsSpace(t[|t| - 1])
    requires JsTruthy(v)
    ensures var data := Obj([Member("text", Str(t)), Member("confidence", v)]);
      && ChosenText(data) == Str(t) && !IsBlank(t) && Trim(t) == t
      && Columns(data, t) == Entry(t, Null, Null, v, Str(DefaultLanguage), Int(0), Int(0))
  {
    var ms := [Member("text", Str(t)), Member("confidence", v)];
    LookupUnique(ms, 0);
    LookupUnique(ms, 1);
    AbsentFromPair(ms, "raw_text");
    AbsentFromPair(ms, "processed_text");
    AbsentFromPair(ms, "language");
    AbsentFromPair(ms, "duration");
    AbsentFromPair(ms, "file_size");
    TrimNoop(t);
  }

  /** A column other than `text` and `confidence` is missing from such a record. */
  lemma AbsentFromPair(ms: seq<Member>, key: string)
    requires |ms| == 2 && ms[0].key == "text" && ms[1].key == "confidence"
    requires key in {"raw_text", "processed_text", "language", "duration", "file_size"}
    ensures Lookup(ms, key).None?
  {
  }

  /** Columns that are neither arrays nor objects give one value each: they are written
      as they are when all bind, and otherwise refused with the type error. */
  lemma ScalarColumnsInserted(e: Entry)
    requires forall i :: 0 <= i < Parameters - 1 ==> !Optional(e)[i].Arr? && !Optional(e)[i].Obj?
    ensures Insert(e) == if forall i :: 0 <= i < Parameters - 1 ==> Bindable(Optional(e)[i])
                         then Success(e) else Failure(BindTypeError)
  {
    var args := Optional(e);
    ScalarSlots(args);
    PlainColumnsInserted(e);
  }

  lemma SpreadSlots(e: Entry, x: Json)
    requires Bindable(x)
    requires e.rawText == Null && e.processedText == Null && e.confidence == Arr([x])
    requires e.language == Str(DefaultLanguage) && e.duration == Int(0) && e.fileSize == Int(0)
    ensures Insert(e) == Success(e.(confidence := x))
  {
    var plain := e.(confidence := x);
    var args := Optional(e);
    assert args == args[..2] + [Arr([x])] + args[3..];
    assert Optional(plain) == args[..2] + [x] + args[3..];
    assert SlotsOf(Arr([x])) == [Value(x)] == SlotsOf(x);
    SlotsReplace(args[..2], Arr([x]), x, args[3..]);
    assert Int(0) == Num(false, 0, []);
    assert forall i :: 0 <= i < Parameters - 1 ==> Bindable(Optional(plain)[i]);
    PlainColumnsInserted(plain);
  }

  /** Two arguments that give the same slots can replace each other anywhere. */
  lemma {:induction false} SlotsReplace(pre: seq<Json>, a: Json, b: Json, post: seq<Json>)
    requires SlotsOf(a) == SlotsOf(b)
    ensures Slots(pre + [a] + post) == Slots(pre + [b] + post)
  {
    if pre == [] {
      assert ([a] + post)[1..] == post && ([b] + post)[1..] == post;
      assert pre + [a] + post == [a] + post && pre + [b] + post == [b] + post;
    } else {
      assert (pre + [a] + post)[1..] == pre[1..] + [a] + post;
      assert (pre + [b] + post)[1..] == pre[1..] + [b] + post;
      SlotsReplace(pre[1..], a, b, post);
    }
  }

  lemma AbsentKey(ms: seq<Member>, key: string)
    requires |ms| == 1 && ms[0].key != key
    ensures Lookup(ms, key).None?
  {
  }

  // ---------------------------------------------------------------------------
  // getTranscriptions

  function Min(a: int, b: int): int { if a < b then a else b }

  /** An order SQLite may return the table in for `ORDER BY created_at DESC`: every row
      position exactly once, creation times never increasing.  Rows created in the same
      instant may come in any order, so the order is an input. */
  predicate IsListingOrder(st: Store, order: seq<nat>) {
    && |order| == |st.rows|
    && (forall i :: 0 <= i < |order| ==> order[i] < |st.rows|)
    && (forall i, j :: 0 <= i < j < |order| ==> order[i] != order[j])
    && (forall k :: 0 <= k < |st.rows| ==> k in order)
    && (forall i, j :: 0 <= i < j < |order| ==> st.rows[order[i]].createdAt >= st.rows[order[j]].createdAt)
  }

  /** `getTranscriptions(limit = 50, offset = 0)`: the rows in the engine's newest-first
      order, skipping `offset` rows and returning at most `limit`. */
  function List(st: Store, order: seq<nat>, limit: Option<nat>, offset: Option<nat>): (r: seq<Row>)
    requires IsListingOrder(st, order)
    ensures var lim := limit.GetOr(DefaultLimit);
      var off := offset.GetOr(0);
      && |r| == (if off >= |st.rows| then 0 else Min(lim, |st.rows| - off))
      && forall i :: 0 <= i < |r| ==> r[i] == st.rows[order[off + i]]
  {
    var off := Min(offset.GetOr(0), |order|);
    var end := Min(off + limit.GetOr(DefaultLimit), |order|);
    seq(end - off, i requires 0 <= i < end - off => st.rows[order[off + i]])
  }

  /** The listing is newest first, and no row is listed twice. */
  lemma ListNewestFirst(st: Store, order: seq<nat>, limit: Option<nat>, offset: Option<nat>)
    requires IsListingOrder(st, order)
    ensures var r := List(st, order, limit, offset);
      forall i, j :: 0 <= i < j < |r| ==> r[i].createdAt >= r[j].createdAt
  {
  }

  /** With no offset and a limit covering the table, every row is listed. */
  lemma ListCoversTable(st: Store, order: seq<nat>, limit: nat, k: nat)
    requires IsListingOrder(st, order) && limit >= |st.rows| && k < |st.rows|
    ensures st.rows[k] in List(st, order, Some(limit), None)
  {
    var r := List(st, order, Some(limit), None);
    var p := PositionOf(st, order, k);
    assert r[p] == st.rows[k];
  }

  /** Where a row position sits in a listing order. */
  lemma PositionOf(st: Store, order: seq<nat>, k: nat) returns (p: nat)
    requires IsListingOrder(st, order) && k < |st.rows|
    ensures p < |order| && order[p] == k
  {
    assert k in order;
    p :| 0 <= p < |order| && order[p] == k;
  }

  /** The creation times never decrease along the table (the clock does not run back). */
  predicate InOrder(st: Store) {
    forall i, j :: 0 <= i < j < |st.rows| ==> st.rows[i].createdAt <= st.rows[j].createdAt
  }

  /** Positions from the last inserted row back to the first. */
  function LatestInsertedFirst(n: nat): (order: seq<nat>)
    ensures |order| == n && forall i :: 0 <= i < n ==> order[i] == n - 1 - i
  {
    seq(n, i requires 0 <= i < n => n - 1 - i)
  }

  /** For a table kept in creation order, latest insertion first is one order the engine
      may return. */
  lemma ReversedIsListingOrder(st: Store)
    requires InOrder(st)
    ensures IsListingOrder(st, LatestInsertedFirst(|st.rows|))
  {
    var n := |st.rows|;
    var order := LatestInsertedFirst(n);
    forall k | 0 <= k < n ensures k in order {
      assert order[n - 1 - k] == k;
    }
    forall i, j | 0 <= i < j < n ensures st.rows[order[i]].createdAt >= st.rows[order[j]].createdAt {
      assert order[j] < order[i];
    }
  }

  /** Saving at a time no earlier than every row puts a row of that time at the head of
      the default listing: the new row itself when every other row is strictly older, and
      otherwise possibly a row created in the same instant. */
  lemma SaveListsFirst(st: Store, data: Json, now: int, order: seq<nat>)
    requires forall i :: 0 <= i < |st.rows| ==> st.rows[i].createdAt <= now
    ensures Save(st, data, now).Success? && IsListingOrder(Save(st, data, now).value.0, order) ==>
      var st' := Save(st, data, now).value.0;
      var r := List(st', order, None, None);
      && |r| > 0 && r[0].createdAt == now
      && ((forall i :: 0 <= i < |st.rows| ==> st.rows[i].createdAt < now) ==>
            r[0] == Row(st.nextId, Normalise(data).value, now))
  {
    var res := Save(st, data, now);
    if res.Success? && IsListingOrder(res.value.0, order) {
      AppendedHeadsListing(st, res.value.0, Row(st.nextId, Normalise(data).value, now), order);
    }
  }

  lemma AppendedHeadsListing(st: Store, st': Store, row: Row, order: seq<nat>)
    requires st'.rows == st.rows + [row] && IsListingOrder(st', order)
    requires forall i :: 0 <= i < |st.rows| ==> st.rows[i].createdAt <= row.createdAt
    ensures var r := List(st', order, None, None);
      && |r| > 0 && r[0].createdAt == row.createdAt
      && ((forall i :: 0 <= i < |st.rows| ==> st.rows[i].createdAt < row.createdAt) ==> r[0] == row)
  {
    var n := |st.rows|;
    assert forall i :: 0 <= i < n ==> st'.rows[i] == st.rows[i];
    LatestHeadsListing(st', order, n);
  }

  /** When the last row is at least as new as every other, the listing starts with a row
      of its time, and with that row itself when every other row is strictly older. */
  lemma LatestHeadsListing(st: Store, order: seq<nat>, n: nat)
    requires IsListingOrder(st, order) && |st.rows| == n + 1
    requires forall i :: 0 <= i < n ==> st.rows[i].createdAt <= st.rows[n].createdAt
    ensures var r := List(st, order, None, None);
      && |r| > 0 && r[0].createdAt == st.rows[n].createdAt
      && ((forall i :: 0 <= i < n ==> st.rows[i].createdAt < st.rows[n].createdAt) ==> r[0] == st.rows[n])
  {
    var p := PositionOf(st, order, n);
    var r := List(st, order, None, None);
    assert r[0] == st.rows[order[0]];
    if p != 0 {
      assert st.rows[order[0]].createdAt >= st.rows[order[p]].createdAt;
    }
  }

  /** A refused record changes nothing, because nothing is written. */
  lemma RefusedSaveWritesNothing(st: Store, data: Json, now: int)
    requires Normalise(data).Failure?
    ensures Save(st, data, now).Failure?
    ensures Save(st, data, now).error in
      {InvalidData, EmptyText, TrimNotAFunction, BindTypeError, TooManyValues, TooFewValues, TwoNamedBags}
  {
  }

  // ---------------------------------------------------------------------------
  // Settings

  /** `setSetting`: the value is stored as `JSON.stringify` text, replacing any earlier one. */
  function SetSetting(st: Store, key: string, value: Json): (r: Store)
    ensures r.rows == st.rows && r.nextId == st.nextId
    ensures r.settings.Keys == st.settings.Keys + {key}
    ensures forall k :: k in st.settings && k != key ==> r.settings[k] == st.settings[k]
  {
    st.(settings := st.settings[key := Serialize(value, Compact)])
  }

  /** What `JSON.parse` makes of a stored text, or the text itself when it is not JSON. */
  function Decode(text: string): (v: Json)
    ensures Parse(text).Some? ==> v == Parse(text).value
    ensures Parse(text).None? ==> v == Str(text)
  {
    match Parse(text)
    case Some(v) => v
    case None => Str(text)
  }

  /** `getSetting(key, defaultValue = null)`. */
  function GetSetting(st: Store, key: string, default: Option<Json>): (r: Json)
    ensures key !in st.settings ==> r == default.GetOr(Null)
    ensures key in st.settings ==> r == Decode(st.settings[key])
  {
    if key in st.settings then Decode(st.settings[key]) else default.GetOr(Null)
  }

  /** `getAllSettings`: every stored key with its decoded value. */
  function AllSettings(st: Store): (r: map<string, Json>)
    ensures r.Keys == st.settings.Keys
  {
    map k | k in st.settings :: Decode(st.settings[k])
  }

  /** `resetSettings`. */
  function ResetSettings(st: Store): (r: Store)
    ensures r.settings == map[] && r.rows == st.rows
  {
    st.(settings := map[])
  }

  /** Setting then getting a key gives the value back; other keys keep theirs. */
  lemma SettingRoundTrip(st: Store, key: string, value: Json, other: string, default: Option<Json>)
    requires Valid(value)
    ensures GetSetting(SetSetting(st, key, value), key, default) == value
    ensures other != key ==> GetSetting(SetSetting(st, key, value), other, default) == GetSetting(st, other, default)
  {
    ParseSerialize(value, Compact);
  }

  /** Each key of `getAllSettings` holds what `getSetting` returns for it. */
  lemma AllSettingsAgree(st: Store, key: string, default: Option<Json>)
    requires key in st.settings
    ensures AllSettings(st)[key] == GetSetting(st, key, default)
  {
  }

  /** After a reset every key answers its default. */
  lemma ResetGivesDefaults(st: Store, key: string, default: Option<Json>)
    ensures GetSetting(ResetSettings(st), key, default) == default.GetOr(Null)
  {
  }
}
