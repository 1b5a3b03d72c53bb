/**
 * The interaction check of the v4 analyzer (`_execute_and_verify_interaction`):
 * run the setup actions, then the steps in order (find the trigger, act on it,
 * wait for each expected outcome), stop at the first step that fails, and run
 * the cleanup actions whatever happened to the steps, unless an error escaped
 * the steps.
 *
 * The browser is not modelled: every action is given as whether it raised
 * (and with what message), every element lookup as what it found, and every
 * outcome as the pages seen while its wait was polling plus the page seen
 * when it is verified once more afterwards.
 */
module InteractionV4 {
  import opened Wrappers
  import opened Text
  import opened ChecksV4

  /**
   * One expected outcome of a step: its configured name (if any), what it
   * checks, the pages seen while `WebDriverWait` polled it within the step's
   * wait, the page seen when it is verified again after the wait succeeded,
   * whether verifying it raised an error other than the timeout (which the
   * step catches), and whether verifying it once more after a timeout raised
   * (which nothing in the interaction catches).
   */
  datatype OutcomeRun = OutcomeRun(name: Option<string>, outcome: OutcomeConfig, polls: seq<Page>, recheck: Page, raised: bool,
                                   timeoutRecheckRaises: bool)

  /**
   * One step of the sequence: its configured name (if any), the trigger's
   * selector ("" when the trigger config or its selector is missing), what the
   * lookup found, whether the element is enabled, the action type ("" when the
   * action config or its type is missing), the error the action raised (if
   * any), and the expected outcomes.
   */
  datatype Step = Step(name: Option<string>, selector: string, trigger: Found, enabled: bool,
                       action: string, actionError: Option<string>, outcomes: seq<OutcomeRun>)

  /** The entries of `interaction_log`. */
  datatype LogEntry =
    | Executing(step: string)
    | TriggerConfigMissing
    | TriggerNotFound(selector: string)
    | TriggerUnusable
    | ActionConfigMissing
    | ActionFailed(action: string, error: string)
    | ActionDone(action: string)
    | OutcomeLogged(outcome: string, passed: bool)
    | StepPassed(step: string)
    | CleanupFailed(error: string)

  /**
   * The result: a setup action raised (the steps and the cleanup never run),
   * the steps ran, or an error escaped the steps (the cleanup never runs and
   * the adherence loop records the check as a 0-point critical error).
   */
  datatype Verdict = SetupFailed(error: string) | Completed(passed: bool, log: seq<LogEntry>) | Crashed

  // ---------------------------------------------------------------------------
  // Outcomes
  // ---------------------------------------------------------------------------

  /** `WebDriverWait(...).until(...)`: some poll within the wait saw the outcome hold. */
  predicate Eventually(o: OutcomeConfig, polls: seq<Page>)
    decreases |polls|
  {
    polls != [] && (OutcomeHolds(o, polls[0]) || Eventually(o, polls[1..]))
  }

  lemma {:induction false} EventuallyIff(o: OutcomeConfig, polls: seq<Page>)
    ensures Eventually(o, polls) <==> exists i :: 0 <= i < |polls| && OutcomeHolds(o, polls[i])
    decreases |polls|
  {
    if polls != [] {
      EventuallyIff(o, polls[1..]);
      if Eventually(o, polls[1..]) {
        var i :| 0 <= i < |polls[1..]| && OutcomeHolds(o, polls[1..][i]);
        assert OutcomeHolds(o, polls[i + 1]);
      }
      if exists i :: 0 <= i < |polls| && OutcomeHolds(o, polls[i]) {
        var i :| 0 <= i < |polls| && OutcomeHolds(o, polls[i]);
        if i > 0 {
          assert OutcomeHolds(o, polls[1..][i - 1]);
        }
      }
    }
  }

  /**
   * An outcome passes when the wait saw it hold and the verification right
   * after the wait confirms it; a timeout or any other error fails it.
   */
  predicate OutcomePasses(r: OutcomeRun) {
    !r.raised && Eventually(r.outcome, r.polls) && OutcomeHolds(r.outcome, r.recheck)
  }

  /**
   * The wait timed out and verifying the outcome once more for the log
   * raised: the error is raised inside the `TimeoutException` handler, so the
   * sibling handler does not catch it and it leaves the interaction.
   */
  predicate Escapes(r: OutcomeRun) {
    !r.raised && !Eventually(r.outcome, r.polls) && r.timeoutRecheckRaises
  }

  /** An escaping outcome is one that timed out: it never passes. */
  lemma EscapeFails(r: OutcomeRun)
    requires Escapes(r)
    ensures !OutcomePasses(r)
  {
  }

  predicate AnyEscapes(rs: seq<OutcomeRun>) {
    exists j :: 0 <= j < |rs| && Escapes(rs[j])
  }

  /** The name an outcome is logged under: its own, or "Outcome <n>" counting from 1. */
  function OutcomeName(r: OutcomeRun, index: nat): string {
    match r.name
      case Some(n) => n
      case None => "Outcome " + Decimal(index + 1)
  }

  /** The log of a step's outcomes from `from` on: one entry per outcome, in order, whatever each verdict. */
  function OutcomeLog(rs: seq<OutcomeRun>, from: nat): (log: seq<LogEntry>)
    requires from <= |rs|
    ensures |log| == |rs| - from
    decreases |rs| - from
  {
    if from == |rs| then []
    else [OutcomeLogged(OutcomeName(rs[from], from), OutcomePasses(rs[from]))] + OutcomeLog(rs, from + 1)
  }

  /** Entry `j` of the outcome log is outcome `j`'s verdict, whatever the verdicts before it. */
  lemma {:induction false} OutcomeLogAt(rs: seq<OutcomeRun>, from: nat, j: nat)
    requires from <= j < |rs|
    ensures OutcomeLog(rs, from)[j - from] == OutcomeLogged(OutcomeName(rs[j], j), OutcomePasses(rs[j]))
    decreases j - from
  {
    if from < j {
      OutcomeLogAt(rs, from + 1, j);
    }
  }

  predicate AllOutcomesPass(rs: seq<OutcomeRun>) {
    forall j :: 0 <= j < |rs| ==> OutcomePasses(rs[j])
  }

  // ---------------------------------------------------------------------------
  // Steps
  // ---------------------------------------------------------------------------

  function StepName(s: Step, index: nat): string {
    match s.name
      case Some(n) => n
      case None => "Step " + Decimal(index + 1)
  }

  /** The trigger can be acted on: it is configured, found, displayed and enabled, and an action type is given. */
  predicate Actionable(s: Step) {
    s.selector != "" && s.trigger.Visible() && s.enabled && s.action != ""
  }

  /** A step passes when its action ran without error and every expected outcome passed. */
  predicate StepPasses(s: Step) {
    Actionable(s) && s.actionError.None? && AllOutcomesPass(s.outcomes)
  }

  /** What one step writes to the log: where it stopped, or every outcome's verdict. */
  function StepLog(s: Step, index: nat): seq<LogEntry> {
    [Executing(StepName(s, index))] +
    if s.selector == "" then [TriggerConfigMissing]
    else if !s.trigger.Present() then [TriggerNotFound(s.selector)]
    else if !s.trigger.Visible() || !s.enabled then [TriggerUnusable]
    else if s.action == "" then [ActionConfigMissing]
    else if s.actionError.Some? then [ActionFailed(s.action, s.actionError.value)]
    else [ActionDone(s.action)] + OutcomeLog(s.outcomes, 0) +
         if AllOutcomesPass(s.outcomes) then [StepPassed(StepName(s, index))] else []
  }

  /** The steps from `from` on, stopping after the first one that fails. */
  function StepsLog(steps: seq<Step>, from: nat): seq<LogEntry>
    requires from <= |steps|
  {
    Chain(StepLogs(steps), StepVerdicts(steps), from)
  }

  /** What each step would log if it ran. */
  function StepLogs(steps: seq<Step>): (ls: seq<seq<LogEntry>>)
    ensures |ls| == |steps|
    ensures forall k :: 0 <= k < |steps| ==> ls[k] == StepLog(steps[k], k)
  {
    seq(|steps|, k requires 0 <= k < |steps| => StepLog(steps[k], k))
  }

  /** Whether each step would pass if it ran. */
  function StepVerdicts(steps: seq<Step>): (vs: seq<bool>)
    ensures |vs| == |steps|
    ensures forall k :: 0 <= k < |steps| ==> vs[k] == StepPasses(steps[k])
  {
    seq(|steps|, k requires 0 <= k < |steps| => StepPasses(steps[k]))
  }

  /** Logs run one after another from `from` on, stopping after the first whose verdict is false. */
  function Chain(logs: seq<seq<LogEntry>>, ok: seq<bool>, from: nat): seq<LogEntry>
    requires |ok| == |logs| && from <= |logs|
    decreases |logs| - from
  {
    if from == |logs| then [] else logs[from] + if ok[from] then Chain(logs, ok, from + 1) else []
  }

  /** The first `n` logs, one after another. */
  function Concat(logs: seq<seq<LogEntry>>, n: nat): seq<LogEntry>
    requires n <= |logs|
  {
    if n == 0 then [] else Concat(logs, n - 1) + logs[n - 1]
  }

  /** When the first `n` verdicts are true, the chain is their logs followed by the chain from `n`. */
  lemma {:induction false} ChainAfterPassed(logs: seq<seq<LogEntry>>, ok: seq<bool>, n: nat)
    requires |ok| == |logs| && n <= |logs|
    requires forall k :: 0 <= k < n ==> ok[k]
    ensures Chain(logs, ok, 0) == Concat(logs, n) + Chain(logs, ok, n)
  {
    if n > 0 {
      ChainAfterPassed(logs, ok, n - 1);
      assert Chain(logs, ok, n - 1) == logs[n - 1] + Chain(logs, ok, n);
    }
  }

  /** A chain stops at a false verdict: what lies after it does not matter. */
  lemma {:induction false} ChainStops(l1: seq<seq<LogEntry>>, o1: seq<bool>, l2: seq<seq<LogEntry>>, o2: seq<bool>,
                                      k: nat, from: nat)
    requires |o1| == |l1| && |o2| == |l2| && from <= k < |l1| && k < |l2| && !o1[k]
    requires forall j :: from <= j <= k ==> l1[j] == l2[j] && o1[j] == o2[j]
    ensures Chain(l1, o1, from) == Chain(l2, o2, from)
    decreases k - from
  {
    if from < k {
      ChainStops(l1, o1, l2, o2, k, from + 1);
    }
  }

  predicate AllStepsPass(steps: seq<Step>) {
    forall k :: 0 <= k < |steps| ==> StepPasses(steps[k])
  }

  /** A step whose action ran verifies its outcomes, and one of them lets an error escape. */
  predicate StepEscapes(s: Step) {
    Actionable(s) && s.actionError.None? && AnyEscapes(s.outcomes)
  }

  /** A step that lets an error escape does not pass. */
  lemma StepEscapeFails(s: Step)
    ensures StepEscapes(s) ==> !StepPasses(s)
  {
    if StepEscapes(s) {
      var j :| 0 <= j < |s.outcomes| && Escapes(s.outcomes[j]);
      EscapeFails(s.outcomes[j]);
    }
  }

  /** Some step is reached (every step before it passed) and lets an error escape. */
  predicate Crashes(steps: seq<Step>) {
    exists k :: 0 <= k < |steps| && StepEscapes(steps[k]) && forall i :: 0 <= i < k ==> StepPasses(steps[i])
  }

  /** The cleanup actions: each error is logged as a warning; nothing else is recorded. */
  function CleanupLog(cleanup: seq<Option<string>>): (log: seq<LogEntry>)
    ensures |log| <= |cleanup|
    decreases |cleanup|
  {
    if cleanup == [] then []
    else
      var rest := CleanupLog(cleanup[..|cleanup| - 1]);
      match cleanup[|cleanup| - 1]
        case None => rest
        case Some(e) => rest + [CleanupFailed(e)]
  }

  /** The first setup error, if any. */
  function SetupError(setup: seq<Option<string>>): (e: Option<string>)
    ensures e.None? <==> forall i :: 0 <= i < |setup| ==> setup[i].None?
    ensures e.Some? ==> exists i :: 0 <= i < |setup| && setup[i] == e
    decreases |setup|
  {
    if setup == [] then None
    else if setup[0].Some? then setup[0]
    else
      var e := SetupError(setup[1..]);
      assert forall i :: 1 <= i < |setup| ==> setup[i] == setup[1..][i - 1];
      e
  }

  /** The interaction as a whole. */
  function Interact(setup: seq<Option<string>>, steps: seq<Step>, cleanup: seq<Option<string>>): Verdict {
    match SetupError(setup)
      case Some(e) => SetupFailed(e)
      case None =>
        if Crashes(steps) then Crashed
        else Completed(AllStepsPass(steps), StepsLog(steps, 0) + CleanupLog(cleanup))
  }

  /** The message returned beside the verdict (an escaped error returns nothing). */
  function Message(v: Verdict): (m: string)
    requires !v.Crashed?
    ensures v.Completed? && v.passed ==> m == "All interaction steps/outcomes verified."
    ensures v.Completed? && !v.passed ==> m == "One or more interaction steps/outcomes failed."
    ensures v.SetupFailed? ==> StartsWith(m, "Interaction setup failed: ")
  {
    match v
      case SetupFailed(e) =>
        var m := "Interaction setup failed: " + e;
        assert m[..|"Interaction setup failed: "|] == "Interaction setup failed: ";
        m
      case Completed(p, _) =>
        if p then "All interaction steps/outcomes verified." else "One or more interaction steps/outcomes failed."
  }

  // ---------------------------------------------------------------------------
  // The loops of `_execute_and_verify_interaction`
  // ---------------------------------------------------------------------------

  /**
   * Verifies a step's outcomes one after another; a failing outcome does not
   * stop the others, an escaping error does.
   */
  method VerifyOutcomes(rs: seq<OutcomeRun>) returns (escaped: bool, allPassed: bool, log: seq<LogEntry>)
    ensures escaped == AnyEscapes(rs)
    ensures !escaped ==> allPassed == AllOutcomesPass(rs) && log == OutcomeLog(rs, 0)
  {
    allPassed := true;
    log := [];
    for j := 0 to |rs|
      invariant forall k :: 0 <= k < j ==> !Escapes(rs[k])
      invariant allPassed == AllOutcomesPass(rs[..j])
      invariant log == OutcomeLog(rs, 0)[..j]
    {
      if Escapes(rs[j]) {
        return true, false, log;
      }
      var passed := OutcomePasses(rs[j]);
      log := log + [OutcomeLogged(OutcomeName(rs[j], j), passed)];
      if !passed {
        allPassed := false;
      }
      assert rs[..j + 1] == rs[..j] + [rs[j]];
      OutcomeLogAt(rs, 0, j);
    }
    assert OutcomeLog(rs, 0)[..|rs|] == OutcomeLog(rs, 0);
    escaped := false;
  }

  /** One step: give up at the first problem with the trigger or the action, else verify every outcome. */
  method RunStep(s: Step, index: nat) returns (escaped: bool, passed: bool, log: seq<LogEntry>)
    ensures escaped == StepEscapes(s)
    ensures !escaped ==> passed == StepPasses(s) && log == StepLog(s, index)
  {
    escaped := false;
    var name := StepName(s, index);
    log := [Executing(name)];
    if s.selector == "" {
      return false, false, log + [TriggerConfigMissing];
    }
    if !s.trigger.Present() {
      return false, false, log + [TriggerNotFound(s.selector)];
    }
    if !s.trigger.Visible() || !s.enabled {
      return false, false, log + [TriggerUnusable];
    }
    if s.action == "" {
      return false, false, log + [ActionConfigMissing];
    }
    if s.actionError.Some? {
      return false, false, log + [ActionFailed(s.action, s.actionError.value)];
    }
    log := log + [ActionDone(s.action)];
    var outcomesLog;
    escaped, passed, outcomesLog := VerifyOutcomes(s.outcomes);
    if escaped {
      return;
    }
    log := log + outcomesLog;
    if passed {
      log := log + [StepPassed(name)];
    }
  }

  /**
   * `_execute_and_verify_interaction`: a setup error returns at once; then
   * the steps run in order until one fails, or until an error escapes, which
   * ends the interaction there; then every cleanup action runs, its errors
   * only logged.
   */
  method ExecuteInteraction(setup: seq<Option<string>>, steps: seq<Step>, cleanup: seq<Option<string>>)
    returns (v: Verdict)
    ensures v.SetupFailed? <==> Interact(setup, steps, cleanup).SetupFailed?
    ensures v.SetupFailed? ==> v.error == Interact(setup, steps, cleanup).error
    ensures v.Crashed? <==> Interact(setup, steps, cleanup).Crashed?
    ensures v.Completed? ==> v.passed == Interact(setup, steps, cleanup).passed
    ensures v.Completed? ==> v.log == Interact(setup, steps, cleanup).log
  {
    var e := RunSetup(setup);
    if e.Some? {
      return SetupFailed(e.value);
    }
    var escaped, passed, log := RunSteps(steps);
    if escaped {
      return Crashed;
    }
    var cleanupLog := RunCleanup(cleanup);
    return Completed(passed, log + cleanupLog);
  }

  /** The setup actions in order, stopping at the first error. */
  method RunSetup(setup: seq<Option<string>>) returns (e: Option<string>)
    ensures e == SetupError(setup)
  {
    for i := 0 to |setup|
      invariant forall k :: 0 <= k < i ==> setup[k].None?
    {
      if setup[i].Some? {
        FirstSetupError(setup, i);
        return setup[i];
      }
    }
    return None;
  }

  /** The steps in order, stopping after the first that fails or lets an error escape. */
  method RunSteps(steps: seq<Step>) returns (escaped: bool, passed: bool, log: seq<LogEntry>)
    ensures escaped == Crashes(steps)
    ensures !escaped ==> passed == AllStepsPass(steps) && log == StepsLog(steps, 0)
  {
    log := [];
    for i := 0 to |steps|
      invariant forall k :: 0 <= k < i ==> StepPasses(steps[k])
      invariant log == PassedLog(steps, i)
    {
      var escapedHere, passedHere, entries := RunStep(steps[i], i);
      if escapedHere {
        return true, false, log;
      }
      if !passedHere {
        NoCrashBefore(steps, i);
        StepsLogAfterPassed(steps, i);
        return false, false, log + entries;
      }
      log := log + entries;
    }
    NoCrashBefore(steps, |steps|);
    StepsLogAfterPassed(steps, |steps|);
    return false, true, log;
  }

  /**
   * When the steps before `n` pass and step `n` (if any) fails without an
   * escaping error, no error escapes the steps.
   */
  lemma NoCrashBefore(steps: seq<Step>, n: nat)
    requires n <= |steps| && forall k :: 0 <= k < n ==> StepPasses(steps[k])
    requires n < |steps| ==> !StepPasses(steps[n]) && !StepEscapes(steps[n])
    ensures !Crashes(steps)
  {
    forall k | 0 <= k < |steps|
      ensures !(StepEscapes(steps[k]) && forall i :: 0 <= i < k ==> StepPasses(steps[i]))
    {
      StepEscapeFails(steps[k]);
      if n < k {
        assert !StepPasses(steps[n]);
      }
    }
  }

  /** The logs of the first `n` steps, one after another. */
  function PassedLog(steps: seq<Step>, n: nat): seq<LogEntry>
    requires n <= |steps|
  {
    if n == 0 then [] else PassedLog(steps, n - 1) + StepLog(steps[n - 1], n - 1)
  }

  lemma {:induction false} PassedLogIsConcat(steps: seq<Step>, n: nat)
    requires n <= |steps|
    ensures PassedLog(steps, n) == Concat(StepLogs(steps), n)
  {
    if n > 0 {
      PassedLogIsConcat(steps, n - 1);
      var logs := StepLogs(steps);
      assert logs[n - 1] == StepLog(steps[n - 1], n - 1);
      assert Concat(logs, n) == Concat(logs, n - 1) + logs[n - 1];
    }
  }

  /** When the first `n` steps pass, the run's log is theirs followed by the rest from step `n`. */
  lemma StepsLogAfterPassed(steps: seq<Step>, n: nat)
    requires n <= |steps| && forall k :: 0 <= k < n ==> StepPasses(steps[k])
    ensures StepsLog(steps, 0) == PassedLog(steps, n) + StepsLog(steps, n)
    ensures n < |steps| && !StepPasses(steps[n]) ==> StepsLog(steps, n) == StepLog(steps[n], n)
  {
    var logs, ok := StepLogs(steps), StepVerdicts(steps);
    ChainAfterPassed(logs, ok, n);
    PassedLogIsConcat(steps, n);
    if n < |steps| && !StepPasses(steps[n]) {
      assert Chain(logs, ok, n) == logs[n] + [];
    }
  }

  /** Every cleanup action runs; its errors are only logged. */
  method RunCleanup(cleanup: seq<Option<string>>) returns (log: seq<LogEntry>)
    ensures log == CleanupLog(cleanup)
  {
    log := [];
    for c := 0 to |cleanup|
      invariant log == CleanupLog(cleanup[..c])
    {
      assert cleanup[..c + 1][..c] == cleanup[..c];
      if cleanup[c].Some? {
        log := log + [CleanupFailed(cleanup[c].value)];
      }
    }
    assert cleanup[..|cleanup|] == cleanup;
  }

  lemma {:induction false} FirstSetupError(setup: seq<Option<string>>, i: nat)
    requires i < |setup| && setup[i].Some?
    requires forall k :: 0 <= k < i ==> setup[k].None?
    ensures SetupError(setup) == setup[i]
    decreases i
  {
    if i > 0 {
      FirstSetupError(setup[1..], i - 1);
    }
  }

  // ---------------------------------------------------------------------------
  // Properties
  // ---------------------------------------------------------------------------

  /** A setup error decides the result: the first one is reported and nothing else happens. */
  lemma SetupErrorDecides(setup: seq<Option<string>>, i: nat, steps: seq<Step>, cleanup: seq<Option<string>>)
    requires i < |setup| && setup[i].Some?
    requires forall k :: 0 <= k < i ==> setup[k].None?
    ensures Interact(setup, steps, cleanup) == SetupFailed(setup[i].value)
  {
    FirstSetupError(setup, i);
  }

  /** Once step `k` fails, the steps after it never run: appending more steps changes nothing. */
  lemma LaterStepsNeverRun(steps: seq<Step>, k: nat, more: seq<Step>, from: nat)
    requires from <= k < |steps| && !StepPasses(steps[k])
    ensures StepsLog(steps + more, from) == StepsLog(steps, from)
    ensures !AllStepsPass(steps + more)
  {
    var l1, o1 := StepLogs(steps), StepVerdicts(steps);
    var l2, o2 := StepLogs(steps + more), StepVerdicts(steps + more);
    forall j | from <= j <= k
      ensures l1[j] == l2[j] && o1[j] == o2[j]
    {
      assert (steps + more)[j] == steps[j];
    }
    ChainStops(l1, o1, l2, o2, k, from);
    assert (steps + more)[k] == steps[k];
  }

  /** The step that fails still logs the verdict of every one of its outcomes, in order, once its action ran. */
  lemma EveryOutcomeLogged(s: Step, index: nat, j: nat)
    requires Actionable(s) && s.actionError.None? && j < |s.outcomes|
    ensures |StepLog(s, index)| >= 2 + |s.outcomes|
    ensures StepLog(s, index)[2 + j] == OutcomeLogged(OutcomeName(s.outcomes[j], j), OutcomePasses(s.outcomes[j]))
  {
    var log := StepLog(s, index);
    assert log == [Executing(StepName(s, index))] + [ActionDone(s.action)] + OutcomeLog(s.outcomes, 0) +
           (if AllOutcomesPass(s.outcomes) then [StepPassed(StepName(s, index))] else []);
    OutcomeLogAt(s.outcomes, 0, j);
    assert log[2 + j] == OutcomeLog(s.outcomes, 0)[j];
  }

  /** A step passes exactly when its log ends with its "Passed" line. */
  lemma StepPassedIff(s: Step, index: nat)
    ensures var log := StepLog(s, index);
            StepPasses(s) <==> log[|log| - 1] == StepPassed(StepName(s, index))
  {
    var log := StepLog(s, index);
    if Actionable(s) && s.actionError.None? && !AllOutcomesPass(s.outcomes) {
      var outcomes := OutcomeLog(s.outcomes, 0);
      assert log == [Executing(StepName(s, index))] + [ActionDone(s.action)] + outcomes;
      var last := |s.outcomes| - 1;
      assert log[|log| - 1] == outcomes[last];
      OutcomeLogAt(s.outcomes, 0, last);
      assert outcomes[last] == OutcomeLogged(OutcomeName(s.outcomes[last], last), OutcomePasses(s.outcomes[last]));
    }
  }

  /** The cleanup never changes the verdict, and the steps' part of the log is the same whatever it does. */
  lemma CleanupNeverDecides(setup: seq<Option<string>>, steps: seq<Step>, c1: seq<Option<string>>, c2: seq<Option<string>>)
    ensures Interact(setup, steps, c1).SetupFailed? == Interact(setup, steps, c2).SetupFailed?
    ensures Interact(setup, steps, c1).Crashed? == Interact(setup, steps, c2).Crashed?
    ensures Interact(setup, steps, c1).Completed? ==>
              && Interact(setup, steps, c1).passed == Interact(setup, steps, c2).passed
              && Interact(setup, steps, c1).log[..|StepsLog(steps, 0)|] == StepsLog(steps, 0)
              && Interact(setup, steps, c2).log[..|StepsLog(steps, 0)|] == StepsLog(steps, 0)
  {
    if SetupError(setup).None? && !Crashes(steps) {
      var l := StepsLog(steps, 0);
      assert (l + CleanupLog(c1))[..|l|] == l;
      assert (l + CleanupLog(c2))[..|l|] == l;
    }
  }

  /**
   * An outcome of a reached step that times out and whose verification for
   * the log raises ends the interaction: no verdict, no cleanup, whatever the
   * later outcomes and steps.
   */
  lemma TimeoutRecheckEscapes(setup: seq<Option<string>>, steps: seq<Step>, cleanup: seq<Option<string>>, k: nat, j: nat)
    requires SetupError(setup).None?
    requires k < |steps| && forall i :: 0 <= i < k ==> StepPasses(steps[i])
    requires Actionable(steps[k]) && steps[k].actionError.None?
    requires j < |steps[k].outcomes| && Escapes(steps[k].outcomes[j])
    ensures Interact(setup, steps, cleanup) == Crashed
  {
    assert StepEscapes(steps[k]);
  }
}
