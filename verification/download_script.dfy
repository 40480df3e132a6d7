/** The model download script (download_models.py): three downloads run in parallel,
    each reporting `downloading` when it starts and `completed` or `error` when it ends;
    every report is printed as one JSON line carrying the overall progress, and a final
    line names the models that failed.

    The threads are replaced by the order in which their reports were printed (a trace
    of reports) and the order in which their results were recorded; the download itself
    is replaced by the stage it ended in.
 */
module DownloadScript {
  import opened Wrappers
  import opened Text
  import opened Json
  import Assets

  type Asset = Assets.Asset

  const Total: nat := 3
  const FailedPrefix: string := "以下模型下载失败: "
  const AllDoneMessage: string := "所有模型下载完成"

  datatype Stage = Downloading | Completed | Failed(message: string)

  /** One progress report, in the order the script printed it. */
  datatype Report = Report(asset: Asset, stage: Stage)

  predicate Terminal(s: Stage) {
    !s.Downloading?
  }

  function StageName(s: Stage): string {
    match s
    case Downloading => "downloading"
    case Completed => "completed"
    case Failed(_) => "error"
  }

  /** The percentage a report carries. */
  function Percent(s: Stage): nat {
    if s.Completed? then 100 else 0
  }

  datatype Percents = Percents(asr: nat, vad: nat, punc: nat) {
    function Of(a: Asset): nat {
      match a
      case Asr => asr
      case Vad => vad
      case Punc => punc
    }

    function With(a: Asset, v: nat): (p: Percents)
      ensures p.Of(a) == v
      ensures forall b :: b != a ==> p.Of(b) == Of(b)
    {
      match a
      case Asr => this.(asr := v)
      case Vad => this.(vad := v)
      case Punc => this.(punc := v)
    }

    function Sum(): nat {
      asr + vad + punc
    }
  }

  /** The script's progress table and its count of finished downloads. */
  datatype Tally = Tally(pct: Percents, completed: nat)

  const Fresh: Tally := Tally(Percents(0, 0, 0), 0)

  /** The progress callback's bookkeeping for one report. */
  function Advance(t: Tally, r: Report): (t': Tally)
    ensures t'.pct.Of(r.asset) == Percent(r.stage)
    ensures forall b :: b != r.asset ==> t'.pct.Of(b) == t.pct.Of(b)
    ensures t'.completed == t.completed + (if Terminal(r.stage) then 1 else 0)
  {
    match r.stage
    case Downloading => t.(pct := t.pct.With(r.asset, 0))
    case Completed => Tally(t.pct.With(r.asset, 100), t.completed + 1)
    case Failed(_) => Tally(t.pct.With(r.asset, 0), t.completed + 1)
  }

  /** `round(sum / 3, 1)` in tenths: `sum * 10 / 3` is never half way between two
      integers, so rounding to nearest is adding a half and flooring. */
  function OverallTenths(sum: nat): (t: nat)
    ensures 6 * t <= 20 * sum + 3 < 6 * t + 6
  {
    (20 * sum + 3) / 6
  }

  /** A number with one digit after the point, as Python prints a float rounded to one
      decimal. */
  function Decimal(tenths: nat): (v: Json)
    ensures v.Num? && !v.neg && |v.frac| == 1 && IsDigit(v.frac[0])
    ensures 10 * v.whole + DigitValue(v.frac[0]) == tenths
  {
    Num(false, tenths / 10, [DigitChar(tenths % 10)])
  }

  /** The status line printed after the bookkeeping `t` of report `r`. */
  function StatusLine(t: Tally, r: Report): (v: Json)
    ensures v.Obj? && Valid(v)
  {
    Obj([Member("stage", Str(StageName(r.stage))),
         Member("model", Str(Assets.AssetName(r.asset))),
         Member("progress", Int(Percent(r.stage))),
         Member("overall_progress", Decimal(OverallTenths(t.pct.Sum()))),
         Member("completed", Int(t.completed)),
         Member("total", Int(Total))]
        + (if r.stage.Failed? && r.stage.message != [] then [Member("error", Str(r.stage.message))] else []))
  }

  /** The bookkeeping after a trace of reports. */
  function After(rs: seq<Report>): Tally
    decreases |rs|
  {
    if rs == [] then Fresh else Advance(After(rs[..|rs| - 1]), rs[|rs| - 1])
  }

  /** The status lines of a trace, one per report. */
  function Lines(rs: seq<Report>): (ls: seq<Json>)
    ensures |ls| == |rs|
    decreases |rs|
  {
    if rs == [] then []
    else Lines(rs[..|rs| - 1]) + [StatusLine(After(rs), rs[|rs| - 1])]
  }

  /** A trace the threads can print: no report for a model after its final one. */
  predicate WellFormed(rs: seq<Report>) {
    forall i, j :: 0 <= i < j < |rs| && rs[i].asset == rs[j].asset ==> !Terminal(rs[i].stage)
  }

  /** The models with a final report in the trace. */
  function Finished(rs: seq<Report>): set<Asset> {
    set i | 0 <= i < |rs| && Terminal(rs[i].stage) :: rs[i].asset
  }

  // ---------------------------------------------------------------------------
  // The final line

  predicate FailedIn(rs: seq<Report>, a: Asset) {
    exists i :: 0 <= i < |rs| && rs[i].asset == a && rs[i].stage.Failed?
  }

  /** The models whose download failed, in the order their results were recorded. */
  function FailedModels(rs: seq<Report>, order: seq<Asset>): (fs: seq<Asset>)
    ensures forall a :: a in fs <==> a in order && FailedIn(rs, a)
    ensures |fs| <= |order|
  {
    if order == [] then []
    else (if FailedIn(rs, order[0]) then [order[0]] else []) + FailedModels(rs, order[1..])
  }

  function Strs(ss: seq<string>): (vs: seq<Json>)
    ensures |vs| == |ss| && forall i :: 0 <= i < |ss| ==> vs[i] == Str(ss[i])
  {
    if ss == [] then [] else [Str(ss[0])] + Strs(ss[1..])
  }

  /** The message of the failure reported for `a`. */
  function FailureMessage(rs: seq<Report>, a: Asset): string {
    if rs == [] then []
    else if rs[|rs| - 1].asset == a && rs[|rs| - 1].stage.Failed? then rs[|rs| - 1].stage.message
    else FailureMessage(rs[..|rs| - 1], a)
  }

  /** What `download_model` returned for `a`. */
  function ResultOf(rs: seq<Report>, a: Asset): Json {
    if FailedIn(rs, a) then
      Obj([Member("success", Bool(false)), Member("model", Str(Assets.AssetName(a))),
           Member("error", Str(FailureMessage(rs, a)))])
    else Obj([Member("success", Bool(true)), Member("model", Str(Assets.AssetName(a)))])
  }

  function Results(rs: seq<Report>, order: seq<Asset>): (ms: seq<Member>)
    ensures forall i :: 0 <= i < |ms| ==> Valid(ms[i].value)
  {
    if order == [] then []
    else [Member(Assets.AssetName(order[0]), ResultOf(rs, order[0]))] + Results(rs, order[1..])
  }

  /** The last line: success exactly when no download failed. */
  function Final(rs: seq<Report>, order: seq<Asset>): (v: Json)
    ensures v.Obj? && Valid(v)
  {
    var failed := FailedModels(rs, order);
    if failed != [] then
      Obj([Member("success", Bool(false)),
           Member("error", Str(FailedPrefix + Join(Assets.AssetNames(failed), ", "))),
           Member("failed_models", Arr(Strs(Assets.AssetNames(failed)))),
           Member("results", Obj(Results(rs, order)))])
    else
      Obj([Member("success", Bool(true)),
           Member("message", Str(AllDoneMessage)),
           Member("results", Obj(Results(rs, order)))])
  }

  /** The line printed when the script itself fails; it then exits with status 1. */
  function CrashLine(message: string): (v: Json)
    ensures v.Obj? && Valid(v)
  {
    Obj([Member("success", Bool(false)), Member("error", Str(message))])
  }

  // ---------------------------------------------------------------------------
  // Properties

  /** The count a status line carries is the number of models that finished, never more
      than three. */
  lemma {:induction false} CompletedCounts(rs: seq<Report>)
    requires WellFormed(rs)
    ensures After(rs).completed == |Finished(rs)| <= Total
    decreases |rs|
  {
    if rs == [] {
      assert Finished(rs) == {};
    } else {
      var n := |rs| - 1;
      var pre := rs[..n];
      assert rs == pre + [rs[n]];
      assert WellFormed(pre);
      CompletedCounts(pre);
      CompletedStep(pre, rs[n]);
    }
    AtMostThree(Finished(rs));
  }

  lemma CompletedStep(pre: seq<Report>, r: Report)
    requires WellFormed(pre + [r])
    requires After(pre).completed == |Finished(pre)|
    ensures After(pre + [r]).completed == |Finished(pre + [r])|
  {
    var xs := pre + [r];
    assert xs[..|pre|] == pre;
    FinishedSnoc(pre, r);
    if Terminal(r.stage) {
      forall i | 0 <= i < |pre| && Terminal(pre[i].stage) ensures pre[i].asset != r.asset {
        assert xs[i] == pre[i] && xs[|pre|] == r;
      }
      assert r.asset !in Finished(pre);
    }
  }

  lemma FinishedSnoc(rs: seq<Report>, r: Report)
    ensures Finished(rs + [r]) == Finished(rs) + (if Terminal(r.stage) then {r.asset} else {})
  {
    var xs := rs + [r];
    forall a | a in Finished(xs) ensures a in Finished(rs) + (if Terminal(r.stage) then {r.asset} else {}) {
      var i :| 0 <= i < |xs| && Terminal(xs[i].stage) && xs[i].asset == a;
      if i < |rs| { assert xs[i] == rs[i]; }
    }
    forall a | a in Finished(rs) ensures a in Finished(xs) {
      var i :| 0 <= i < |rs| && Terminal(rs[i].stage) && rs[i].asset == a;
      assert xs[i] == rs[i];
    }
    if Terminal(r.stage) {
      assert xs[|rs|] == r;
    }
  }

  lemma AtMostThree(s: set<Asset>)
    ensures |s| <= 3
  {
    var all: set<Asset> := {Assets.Asr, Assets.Vad, Assets.Punc};
    assert s <= all by {
      forall a | a in s ensures a in all {
        assert a.Asr? || a.Vad? || a.Punc?;
      }
    }
    SubsetCard(s, all);
  }

  lemma {:induction false} SubsetCard<T>(a: set<T>, b: set<T>)
    requires a <= b
    ensures |a| <= |b|
    decreases |b|
  {
    if a != {} {
      var x :| x in a;
      SubsetCard(a - {x}, b - {x});
    }
  }

  /** In a well-formed trace a model's percentage is 100 exactly when it completed, and 0
      otherwise. */
  lemma {:induction false} PercentsReflectCompletion(rs: seq<Report>, a: Asset)
    requires WellFormed(rs)
    ensures After(rs).pct.Of(a) == (if Completion(rs, a) then 100 else 0)
    ensures !Completion(rs, a) || a in Finished(rs)
    decreases |rs|
  {
    if rs != [] {
      var n := |rs| - 1;
      var pre := rs[..n];
      assert WellFormed(pre);
      PercentsReflectCompletion(pre, a);
      assert rs == pre + [rs[n]];
      FinishedSnoc(pre, rs[n]);
      if rs[n].asset == a {
        forall i | 0 <= i < n && pre[i].asset == a ensures !pre[i].stage.Completed? {
          assert rs[i] == pre[i];
        }
        assert !Completion(pre, a);
        assert Completion(rs, a) <==> rs[n].stage.Completed? by {
          forall i | 0 <= i < n && rs[i].asset == a ensures !rs[i].stage.Completed? {
            assert rs[i] == pre[i];
          }
        }
      } else {
        CompletionSnocOther(pre, rs[n], a);
      }
    }
  }

  predicate Completion(rs: seq<Report>, a: Asset) {
    exists i :: 0 <= i < |rs| && rs[i].asset == a && rs[i].stage.Completed?
  }

  lemma CompletionSnocOther(rs: seq<Report>, r: Report, a: Asset)
    requires r.asset != a
    ensures Completion(rs + [r], a) <==> Completion(rs, a)
  {
    var xs := rs + [r];
    if Completion(xs, a) {
      var i :| 0 <= i < |xs| && xs[i].asset == a && xs[i].stage.Completed?;
      assert i < |rs| && rs[i] == xs[i];
    }
    if Completion(rs, a) {
      var i :| 0 <= i < |rs| && rs[i].asset == a && rs[i].stage.Completed?;
      assert xs[i] == rs[i];
    }
  }

  /** The overall progress of a well-formed trace never goes down from one line to the
      next. */
  lemma OverallNeverDecreases(rs: seq<Report>, r: Report)
    requires WellFormed(rs + [r])
    ensures OverallTenths(After(rs).pct.Sum()) <= OverallTenths(After(rs + [r]).pct.Sum())
  {
    var xs := rs + [r];
    assert xs[..|rs|] == rs;
    assert WellFormed(rs);
    PercentsReflectCompletion(rs, r.asset);
    assert Completion(rs, r.asset) ==> r.asset in Finished(rs);
    forall i | 0 <= i < |rs| && Terminal(rs[i].stage) ensures rs[i].asset != r.asset {
      assert xs[i] == rs[i] && xs[|rs|] == r;
    }
    assert r.asset !in Finished(rs);
    var before := After(rs).pct;
    var after := After(xs).pct;
    assert before.Of(r.asset) == 0;
    PercentSumSplit(before, r.asset);
    PercentSumSplit(after, r.asset);
    OtherPercentsKept(before, after, r.asset);
    assert before.Sum() <= after.Sum();
  }

  lemma PercentSumSplit(p: Percents, a: Asset)
    ensures p.Sum() == p.Of(a) + (p.Sum() - p.Of(a))
    ensures p.Sum() - p.Of(a) == (match a
                                  case Asr => p.vad + p.punc
                                  case Vad => p.asr + p.punc
                                  case Punc => p.asr + p.vad)
  {
  }

  lemma OtherPercentsKept(p: Percents, q: Percents, a: Asset)
    requires forall b :: b != a ==> q.Of(b) == p.Of(b)
    ensures q.Sum() - q.Of(a) == p.Sum() - p.Of(a)
  {
    assert q.Of(Assets.Asr) == p.Of(Assets.Asr) || a == Assets.Asr;
    assert q.Of(Assets.Vad) == p.Of(Assets.Vad) || a == Assets.Vad;
    assert q.Of(Assets.Punc) == p.Of(Assets.Punc) || a == Assets.Punc;
  }

  /** A status line carries an `error` field exactly when it reports a failure with a
      non-empty message. */
  lemma ErrorFieldIffFailure(t: Tally, r: Report)
    ensures Get(StatusLine(t, r), "error").Some? <==> r.stage.Failed? && r.stage.message != []
    ensures r.stage.Failed? && r.stage.message != [] ==>
      Get(StatusLine(t, r), "error") == Some(Str(r.stage.message))
  {
    var ms := StatusLine(t, r).members;
    assert ms[0].key == "stage" && ms[1].key == "model" && ms[2].key == "progress";
    assert ms[3].key == "overall_progress" && ms[4].key == "completed" && ms[5].key == "total";
    if r.stage.Failed? && r.stage.message != [] {
      assert ms[6] == Member("error", Str(r.stage.message));
      assert LastIndex(ms, "error") == Some(6);
    } else {
      assert |ms| == 6;
    }
  }

  /** The fields of a status line the download client reads. */
  lemma StatusLineFields(t: Tally, r: Report)
    ensures var v := StatusLine(t, r);
      && Get(v, "stage") == Some(Str(StageName(r.stage)))
      && Get(v, "completed") == Some(Int(t.completed))
      && Get(v, "success").None?
  {
    var ms := StatusLine(t, r).members;
    assert ms[0].key == "stage" && ms[1].key == "model" && ms[2].key == "progress";
    assert ms[3].key == "overall_progress" && ms[4].key == "completed" && ms[5].key == "total";
    assert |ms| == 6 || ms[6].key == "error";
    LookupUnique(ms, 0);
    LookupUnique(ms, 4);
  }

  /** The last line reports success exactly when no download failed; otherwise it names
      the failed models in the order their results were recorded, and the error text
      lists them. */
  lemma FinalReportsFailures(rs: seq<Report>, order: seq<Asset>)
    ensures var v := Final(rs, order);
      var failed := FailedModels(rs, order);
      && Get(v, "success") == Some(Bool(failed == []))
      && (failed != [] ==>
            && Get(v, "failed_models") == Some(Arr(Strs(Assets.AssetNames(failed))))
            && Get(v, "error") == Some(Str(FailedPrefix + Join(Assets.AssetNames(failed), ", "))))
      && (failed == [] ==> Get(v, "message") == Some(Str(AllDoneMessage)) && Get(v, "error").None?)
      && Get(v, "stage").None?
  {
    var failed := FailedModels(rs, order);
    if failed != [] {
      FailureFields(Str(FailedPrefix + Join(Assets.AssetNames(failed), ", ")), Arr(Strs(Assets.AssetNames(failed))),
                    Obj(Results(rs, order)));
    } else {
      SuccessFields(Obj(Results(rs, order)));
    }
  }

  lemma FailureFields(error: Json, failed: Json, results: Json)
    ensures var ms := [Member("success", Bool(false)), Member("error", error),
                       Member("failed_models", failed), Member("results", results)];
      && Lookup(ms, "success") == Some(Bool(false))
      && Lookup(ms, "error") == Some(error)
      && Lookup(ms, "failed_models") == Some(failed)
      && Lookup(ms, "stage").None?
  {
    var ms := [Member("success", Bool(false)), Member("error", error),
               Member("failed_models", failed), Member("results", results)];
    LookupUnique(ms, 0);
    LookupUnique(ms, 1);
    LookupUnique(ms, 2);
  }

  lemma SuccessFields(results: Json)
    ensures var ms := [Member("success", Bool(true)), Member("message", Str(AllDoneMessage)),
                       Member("results", results)];
      && Lookup(ms, "success") == Some(Bool(true))
      && Lookup(ms, "message") == Some(Str(AllDoneMessage))
      && Lookup(ms, "error").None?
      && Lookup(ms, "stage").None?
  {
    var ms := [Member("success", Bool(true)), Member("message", Str(AllDoneMessage)),
               Member("results", results)];
    LookupUnique(ms, 0);
    LookupUnique(ms, 1);
  }

  /** With every model recorded, the final line reports success exactly when the trace
      holds no failure. */
  lemma SuccessIffNoFailure(rs: seq<Report>, order: seq<Asset>)
    requires forall a: Asset :: a in order
    ensures Get(Final(rs, order), "success") == Some(Bool(forall i :: 0 <= i < |rs| ==> !rs[i].stage.Failed?))
  {
    FinalReportsFailures(rs, order);
    var failed := FailedModels(rs, order);
    if failed == [] {
      forall i | 0 <= i < |rs| ensures !rs[i].stage.Failed? {
        assert rs[i].asset !in failed;
        assert !FailedIn(rs, rs[i].asset);
      }
    } else {
      var a := failed[0];
      assert FailedIn(rs, a);
    }
  }
}
