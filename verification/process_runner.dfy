/** `runCommand` (src/utils/process.js): run a child process and settle a promise exactly
    once, with whichever of the timer, the `close` event and the `error` event comes first.

    The child is replaced by the trace of events it delivers; spawning, the pipes and the
    signal are not modelled, only the decision the runner takes on each event.
 */
module ProcessRunner {
  import opened Wrappers
  import opened Text

  /** The fixed timeouts, in milliseconds. */
  const QuickCheck: nat := 5000
  const PipUpgrade: nat := 60000
  const Install: nat := 300000
  const Download: nat := 600000

  /** What the child delivers, in arrival order.  `Close(None)` is a child ended by a
      signal, whose exit code JavaScript reports as `null`. */
  datatype Event =
    | StdoutData(chunk: string)
    | StderrData(chunk: string)
    | Close(code: Option<int>)
    | SpawnError(message: string)
    | TimerFired

  datatype Outcome =
    | Pending
    | Resolved(output: string, code: int)
    | Rejected(message: string)

  /** An environment block: variable names to values. */
  type Env = map<string, string>

  datatype Run = Run(
    command: string,
    args: seq<string>,
    env: Env,
    timeout: nat,
    stdout: string,
    stderr: string,
    outcome: Outcome,
    killed: bool)

  /** The timeout in effect: the caller's, else the quick-check default. */
  function TimeoutOf(requested: Option<nat>): (t: nat)
    ensures requested.None? ==> t == QuickCheck
    ensures requested.Some? ==> t == requested.value
  {
    requested.GetOr(QuickCheck)
  }

  /** The start `runCommand` evidently intends: the child runs with the caller's `env`,
      else with the parent's environment `inherited`, and nothing has settled yet. */
  function Start(command: string, args: seq<string>, requested: Option<nat>,
                 env: Option<Env>, inherited: Env): (r: Run)
    ensures r.outcome.Pending? && !r.killed && r.stdout == [] && r.stderr == []
    ensures r.timeout == TimeoutOf(requested)
    ensures r.env == (if env.Some? then env.value else inherited)
  {
    Run(command, args, env.GetOr(inherited), TimeoutOf(requested), [], [], Pending, false)
  }

  /** What JavaScript throws when `env || process.env` reads the local `process` whose
      initialiser is still being evaluated. */
  const UninitialisedProcess: string := "Cannot access 'process' before initialization"

  /** The start as written: without `env` the executor throws before `spawn` is called and
      before the timer is set, so the promise is rejected at once and no child exists.
      With `env` it is the intended start. */
  function StartAsWritten(command: string, args: seq<string>, requested: Option<nat>,
                          env: Option<Env>): (r: Run)
    ensures env.None? ==> r.outcome == Rejected(UninitialisedProcess) && !r.killed
    ensures env.Some? ==> r == Start(command, args, requested, env, map[])
  {
    if env.None? then
      Run(command, args, map[], TimeoutOf(requested), [], [], Rejected(UninitialisedProcess), false)
    else Start(command, args, requested, env, map[])
  }

  /** How JavaScript prints a possibly null exit code inside a template string. */
  function CodeText(code: Option<int>): string {
    match code
    case None => "null"
    case Some(c) => IntToString(c)
  }

  /** The settlement a settling event produces, given the output gathered so far. */
  function Settlement(e: Event, command: string, args: seq<string>, timeout: nat,
                      stdout: string, stderr: string): (o: Outcome)
    requires e.Close? || e.SpawnError? || e.TimerFired?
    ensures !o.Pending?
    ensures o.Resolved? <==> e == Close(Some(0))
    ensures o.Resolved? ==> o.output == stdout + stderr && o.code == 0
    ensures e.TimerFired? ==>
      o == Rejected("Command timed out after " + NatToString(timeout) + "ms: " + command + " " + Join(args, " "))
    ensures e.Close? && e.code != Some(0) ==>
      o == Rejected("Command failed with code " + CodeText(e.code) + ": " + (if stderr != [] then stderr else stdout))
    ensures e.SpawnError? ==> o == Rejected("Process error: " + e.message)
  {
    match e
    case TimerFired =>
      Rejected("Command timed out after " + NatToString(timeout) + "ms: " + command + " "
               + Join(args, " "))
    case Close(code) =>
      if code == Some(0) then Resolved(stdout + stderr, 0)
      else Rejected("Command failed with code " + CodeText(code) + ": "
                    + (if stderr != [] then stderr else stdout))
    case SpawnError(m) => Rejected("Process error: " + m)
  }

  predicate Settles(e: Event) {
    e.Close? || e.SpawnError? || e.TimerFired?
  }

  /** One event.  Output keeps accumulating after settlement; settlement happens once. */
  function Step(r: Run, e: Event): (r': Run)
    ensures r'.command == r.command && r'.args == r.args && r'.timeout == r.timeout && r'.env == r.env
    ensures !r.outcome.Pending? ==> r'.outcome == r.outcome && r'.killed == r.killed
    ensures r.outcome.Pending? && Settles(e) ==> !r'.outcome.Pending?
    ensures r'.killed <==> r.killed || (r.outcome.Pending? && e.TimerFired?)
  {
    match e
    case StdoutData(c) => r.(stdout := r.stdout + c)
    case StderrData(c) => r.(stderr := r.stderr + c)
    case _ =>
      if !r.outcome.Pending? then r
      else r.(outcome := Settlement(e, r.command, r.args, r.timeout, r.stdout, r.stderr),
              killed := r.killed || e.TimerFired?)
  }

  function RunTrace(r: Run, es: seq<Event>): Run
    decreases |es|
  {
    if es == [] then r else RunTrace(Step(r, es[0]), es[1..])
  }

  // ---------------------------------------------------------------------------
  // A declarative reading of the same trace

  /** The position of the first settling event. */
  function FirstSettling(es: seq<Event>): (r: Option<nat>)
    ensures r.None? ==> forall i :: 0 <= i < |es| ==> !Settles(es[i])
    ensures r.Some? ==> r.value < |es| && Settles(es[r.value])
                        && forall j :: 0 <= j < r.value ==> !Settles(es[j])
  {
    if es == [] then None
    else if Settles(es[0]) then Some(0)
    else match FirstSettling(es[1..])
      case None => None
      case Some(i) => Some(i + 1)
  }

  /** The standard output carried by a trace. */
  function StdoutOf(es: seq<Event>): string {
    if es == [] then [] else OutOf(es[0]) + StdoutOf(es[1..])
  }

  function StderrOf(es: seq<Event>): string {
    if es == [] then [] else ErrOf(es[0]) + StderrOf(es[1..])
  }

  function OutOf(e: Event): string {
    if e.StdoutData? then e.chunk else []
  }

  function ErrOf(e: Event): string {
    if e.StderrData? then e.chunk else []
  }

  /** The outcome of a pending run after a trace is fixed by the trace's first settling
      event and the output that arrived before it; later events change nothing. */
  lemma {:induction false} OutcomeIsFirstSettling(r: Run, es: seq<Event>)
    requires r.outcome.Pending?
    ensures var f := FirstSettling(es);
      RunTrace(r, es).outcome ==
        (if f.None? then Pending
         else Settlement(es[f.value], r.command, r.args, r.timeout,
                         r.stdout + StdoutOf(es[..f.value]), r.stderr + StderrOf(es[..f.value])))
    decreases |es|
  {
    if es != [] {
      var r1 := Step(r, es[0]);
      if Settles(es[0]) {
        assert es[..0] == [];
        SettledStays(r1, es[1..]);
      } else {
        StepQuiet(r, es[0]);
        OutcomeIsFirstSettling(r1, es[1..]);
        var f := FirstSettling(es[1..]);
        if f.Some? {
          var i := f.value;
          assert FirstSettling(es) == Some(i + 1);
          assert es[1..][i] == es[i + 1];
          PrefixOutput(es, i);
          Assoc(r.stdout, OutOf(es[0]), StdoutOf(es[1..][..i]));
          Assoc(r.stderr, ErrOf(es[0]), StderrOf(es[1..][..i]));
        } else {
          assert FirstSettling(es) == None;
        }
      }
    }
  }

  /** The child is killed exactly when the timer is the first settling event. */
  lemma {:induction false} KilledIffTimerFirst(r: Run, es: seq<Event>)
    requires r.outcome.Pending? && !r.killed
    ensures RunTrace(r, es).killed <==> (FirstSettling(es).Some? && es[FirstSettling(es).value].TimerFired?)
    decreases |es|
  {
    if es != [] {
      var r1 := Step(r, es[0]);
      if Settles(es[0]) {
        SettledStays(r1, es[1..]);
      } else {
        KilledIffTimerFirst(r1, es[1..]);
      }
    }
  }

  lemma StepQuiet(r: Run, e: Event)
    requires !Settles(e)
    ensures Step(r, e) == r.(stdout := r.stdout + OutOf(e), stderr := r.stderr + ErrOf(e))
  {
  }

  lemma PrefixOutput(es: seq<Event>, i: nat)
    requires i < |es|
    ensures StdoutOf(es[..i + 1]) == OutOf(es[0]) + StdoutOf(es[1..][..i])
    ensures StderrOf(es[..i + 1]) == ErrOf(es[0]) + StderrOf(es[1..][..i])
  {
    assert es[..i + 1][1..] == es[1..][..i];
  }

  lemma Assoc(a: string, b: string, c: string)
    ensures a + (b + c) == a + b + c
  {
  }

  /** Once settled, no later event changes the outcome or the kill. */
  lemma {:induction false} SettledStays(r: Run, es: seq<Event>)
    requires !r.outcome.Pending?
    ensures RunTrace(r, es).outcome == r.outcome
    ensures RunTrace(r, es).killed == r.killed
    decreases |es|
  {
    if es != [] {
      SettledStays(Step(r, es[0]), es[1..]);
    }
  }

  /** A fresh run whose first settling event is `e` ends with `e`'s settlement, computed
      from the output that arrived before `e`, whatever follows; the child is killed
      exactly when `e` is the timer.  In particular an exit with code 0 resolves with the
      standard output followed by the standard error. */
  lemma FirstSettlerDecides(command: string, args: seq<string>, requested: Option<nat>,
                            env: Option<Env>, inherited: Env,
                            before: seq<Event>, e: Event, after: seq<Event>)
    requires forall i :: 0 <= i < |before| ==> !Settles(before[i])
    requires Settles(e)
    ensures var run := RunTrace(Start(command, args, requested, env, inherited), before + [e] + after);
      && run.outcome == Settlement(e, command, args, TimeoutOf(requested),
                                   StdoutOf(before), StderrOf(before))
      && (run.killed <==> e.TimerFired?)
  {
    var tail := [e] + after;
    var es := before + tail;
    assert before + [e] + after == es;
    var r := Start(command, args, requested, env, inherited);
    NoSettlingBefore(before, tail);
    OutcomeIsFirstSettling(r, es);
    KilledIffTimerFirst(r, es);
    assert es[..|before|] == before;
    assert es[|before|] == e;
    assert r.stdout + StdoutOf(before) == StdoutOf(before);
    assert r.stderr + StderrOf(before) == StderrOf(before);
  }

  lemma {:induction false} NoSettlingBefore(before: seq<Event>, tail: seq<Event>)
    requires forall i :: 0 <= i < |before| ==> !Settles(before[i])
    requires tail != [] && Settles(tail[0])
    ensures FirstSettling(before + tail) == Some(|before|)
    decreases |before|
  {
    if before != [] {
      assert (before + tail)[1..] == before[1..] + tail;
      NoSettlingBefore(before[1..], tail);
    } else {
      assert before + tail == tail;
    }
  }

  /** As written, a call without `env` (every call the program makes passes only a
      timeout) is rejected with the initialisation error whatever the child would have
      done: no event can settle it differently, and nothing is ever killed. */
  lemma DefaultEnvRejects(command: string, args: seq<string>, requested: Option<nat>, es: seq<Event>)
    ensures var run := RunTrace(StartAsWritten(command, args, requested, None), es);
      run.outcome == Rejected(UninitialisedProcess) && !run.killed
  {
    SettledStays(StartAsWritten(command, args, requested, None), es);
  }

  /** The same call through the intended start runs in the parent's environment and is
      decided by its first settling event; a prompt exit with code 0 resolves. */
  lemma DefaultEnvInherits(command: string, args: seq<string>, requested: Option<nat>, inherited: Env,
                           out: string)
    ensures Start(command, args, requested, None, inherited).env == inherited
    ensures RunTrace(Start(command, args, requested, None, inherited), [StdoutData(out), Close(Some(0))]).outcome
      == Resolved(out, 0)
  {
    FirstSettlerDecides(command, args, requested, None, inherited, [StdoutData(out)], Close(Some(0)), []);
    assert StdoutOf([StdoutData(out)]) == out + StdoutOf([]);
    assert [StdoutData(out)] + [Close(Some(0))] + [] == [StdoutData(out), Close(Some(0))];
  }
}
