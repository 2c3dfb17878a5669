/** An experiment's facts, and the one judgement decided from them. */
module Verdicts {
  import opened Options

  datatype TestState = Passed | Failed | Skipped | Pending
  datatype ErrorFact = ErrorFact(isAssertion: bool, name: Option<string>)
  datatype Hook = Hook(name: string, state: string)
  datatype Reach = InTest | OutsideTest | NotExecuted | UnknownReach(reason: string)
  datatype Load = Load(applied: bool, occurrences: nat)

  datatype TestFacts = TestFacts(
    state: TestState, mode: string, errors: seq<ErrorFact>, repeats: Option<nat>, hooks: Option<seq<Hook>>,
    reach: Option<Reach>)

  datatype ModuleFacts = Collected(errorCount: nat, failingSuites: seq<seq<string>>) | Uncollected(state: string)

  datatype Execution = Completed | Interrupted | OtherExecution
  datatype RunEnding = RunEnding(execution: Execution, forceStopped: bool, cancelFailed: bool)

  datatype RunFacts = RunFacts(
    test: Option<TestFacts>, moduleFacts: Option<ModuleFacts>, unhandledErrorCount: nat, ending: RunEnding,
    mutation: seq<Load>)

  datatype BaselineFacts = BaselineFacts(run: RunFacts, countedUnhandledErrorCount: nat, unnamedUnhandledErrorCount: nat)

  datatype Confirming = ConfirmedBy(run: RunFacts) | ConfirmingUnrecorded | ConfirmingInterrupted
  datatype RestoredBaseline = Recorded(baseline: BaselineFacts) | Unrecorded
  datatype NextRun = NextRecorded(unhandledErrorCount: nat) | NextUnrecorded
  datatype JobFacts = JobFacts(unhandledErrorCount: nat, closed: bool)

  datatype NotRun =
    | InterruptedNotRun
    | Unreadable
    | AnchorCount(count: nat)
    | BaselineNotRun
    | RunUnrecorded
    | NoProbeSite
    | NoModule
    | BaselineNotPassed

  datatype OwnFacts =
    | WithoutRun(notRun: NotRun)
    | WithRun(run: RunFacts, confirming: Option<Confirming>, nextRun: Option<NextRun>)

  datatype ExperimentFacts = ExperimentFacts(
    baseline: Option<BaselineFacts>, restoredBaseline: Option<RestoredBaseline>, job: JobFacts, own: OwnFacts)

  datatype Unexecuted = NeverTransformed | NotApplied(occurrences: nat)

  datatype InvalidReason =
    | RunNotClean
    | ModuleFailed
    | SuiteError(suite: seq<string>)
    | TestNotRun(state: Option<TestState>)
    | HookNotPassed(hook: string, hookState: Option<string>)
    | TestRepeated(repeats: nat)
    | SiteNotExecuted(detail: Option<Unexecuted>)
    | ReachUnknown(cause: Option<string>)
    | ProbeSiteMissing
    | ModuleMissing
    | FirstBaselineNotPassed(test: Option<(TestState, string)>)
    | FirstBaselineNotClean
    | RestoredBaselineNotPassed
    | RestoredBaselineNotClean

  datatype UnclearReason =
    | NotAnAssertion
    | UnhandledError
    | ConfirmingRunDiffered(confirming: RunReading)
    | NextRunUnclean
    | JobUnclean

  /** What one run of an experiment reads, taken alone. */
  datatype RunReading =
    | RunSurvived
    | RunInvalid(invalid: InvalidReason)
    | RunUnclear(unclear: UnclearReason)
    | WouldDetect

  datatype NoVerdictReason =
    | JobInterrupted
    | MutationFileUnreadable
    | AnchorNotOnce(count: nat)
    | BaselineUnrecorded
    | FirstRunUnrecorded
    | ConfirmingRunUnrecorded
    | RestoredBaselineUnrecorded

  datatype Judgement =
    | Detected
    | Survived
    | InvalidExperiment(invalid: InvalidReason)
    | Unclear(unclear: UnclearReason)
    | NoVerdict(why: NoVerdictReason)

  const REQUIRED_HOOK := "beforeEach"
  const HOOK_PASSED := "pass"

  function Judge(facts: ExperimentFacts): Judgement {
    match facts.own
    case WithoutRun(notRun) => JudgeNotRun(notRun, facts.baseline)
    case WithRun(run, confirming, nextRun) => JudgeRan(facts, run, confirming, nextRun)
  }

  function JudgeNotRun(notRun: NotRun, baseline: Option<BaselineFacts>): Judgement {
    match notRun
    case InterruptedNotRun => NoVerdict(JobInterrupted)
    case Unreadable => NoVerdict(MutationFileUnreadable)
    case AnchorCount(count) => NoVerdict(AnchorNotOnce(count))
    case BaselineNotRun => NoVerdict(BaselineUnrecorded)
    case RunUnrecorded => NoVerdict(FirstRunUnrecorded)
    case NoProbeSite => InvalidExperiment(ProbeSiteMissing)
    case NoModule => InvalidExperiment(ModuleMissing)
    case BaselineNotPassed => BaselineFailed(baseline)
  }

  function JudgeRan(
    facts: ExperimentFacts, run: RunFacts, confirming: Option<Confirming>, nextRun: Option<NextRun>): Judgement
  {
    if facts.baseline.None? then NoVerdict(BaselineUnrecorded)
    else if confirming.Some? && !confirming.value.ConfirmedBy? then NoVerdict(ConfirmingRunUnrecorded)
    else if facts.restoredBaseline.None? || facts.restoredBaseline.value.Unrecorded?
    then NoVerdict(RestoredBaselineUnrecorded)
    else
      var trouble := BaselineTrouble(facts.baseline.value, facts.restoredBaseline.value.baseline);
      if trouble.Some? then trouble.value else JudgeRuns(run, confirming, nextRun, facts.job)
  }

  function BaselineTrouble(baseline: BaselineFacts, restored: BaselineFacts): Option<Judgement> {
    if !PassedIn(baseline.run) then Some(BaselineFailed(Some(baseline)))
    else if !Untroubled(baseline) then Some(InvalidExperiment(FirstBaselineNotClean))
    else if !PassedIn(restored.run) then Some(InvalidExperiment(RestoredBaselineNotPassed))
    else if !Untroubled(restored) then Some(InvalidExperiment(RestoredBaselineNotClean))
    else None
  }

  function BaselineFailed(baseline: Option<BaselineFacts>): Judgement {
    var test := if baseline.None? then None else baseline.value.run.test;
    InvalidExperiment(FirstBaselineNotPassed(if test.None? then None else Some((test.value.state, test.value.mode))))
  }

  function JudgeRuns(
    run: RunFacts, confirming: Option<Confirming>, nextRun: Option<NextRun>, job: JobFacts): Judgement
    requires confirming.Some? ==> confirming.value.ConfirmedBy?
  {
    match ReadRun(run)
    case RunSurvived => Survived
    case RunInvalid(invalid) => InvalidExperiment(invalid)
    case RunUnclear(unclear) => Unclear(unclear)
    case WouldDetect =>
      if confirming.None? then NoVerdict(ConfirmingRunUnrecorded)
      else
        var second := ReadRun(confirming.value.run);
        if !second.WouldDetect? then Unclear(ConfirmingRunDiffered(second))
        else if nextRun.None? || nextRun.value.NextUnrecorded? || nextRun.value.unhandledErrorCount > 0
        then Unclear(NextRunUnclean)
        else if job.unhandledErrorCount > 0 || !job.closed then Unclear(JobUnclean)
        else Detected
  }

  function ReadRun(run: RunFacts): RunReading {
    if !EndedCleanly(run.ending) then RunInvalid(RunNotClean)
    else
      var moduleTrouble := ReadModule(run.moduleFacts);
      if moduleTrouble.Some? then RunInvalid(moduleTrouble.value)
      else if run.test.None? then RunInvalid(TestNotRun(None))
      else
        var test := run.test.value;
        if test.state != Passed && test.state != Failed then RunInvalid(TestNotRun(Some(test.state)))
        else
          var trouble := FirstOf(ReadHooks(test.hooks), FirstOf(ReadRepeats(test), ReadReach(test.reach, run.mutation)));
          if trouble.Some? then RunInvalid(trouble.value) else ReadBody(test, run.unhandledErrorCount)
  }

  function FirstOf<T>(first: Option<T>, second: Option<T>): Option<T> {
    if first.Some? then first else second
  }

  function ReadModule(facts: Option<ModuleFacts>): Option<InvalidReason> {
    if facts.None? || facts.value.Uncollected? || facts.value.errorCount > 0 then Some(ModuleFailed)
    else if facts.value.failingSuites == [] then None
    else Some(SuiteError(facts.value.failingSuites[0]))
  }

  function ReadHooks(hooks: Option<seq<Hook>>): Option<InvalidReason> {
    if hooks.None? || !(exists h :: h in hooks.value && h.name == REQUIRED_HOOK)
    then Some(HookNotPassed(REQUIRED_HOOK, None))
    else FirstHookNotPassed(hooks.value)
  }

  function FirstHookNotPassed(hooks: seq<Hook>): (first: Option<InvalidReason>)
    ensures first.None? <==> forall h :: h in hooks ==> h.state == HOOK_PASSED
  {
    if hooks == [] then None
    else if hooks[0].state != HOOK_PASSED then Some(HookNotPassed(hooks[0].name, Some(hooks[0].state)))
    else FirstHookNotPassed(hooks[1..])
  }

  /** A repeated test's failure cannot be told from one in a hook. */
  function ReadRepeats(test: TestFacts): Option<InvalidReason> {
    if test.state != Failed || test.repeats.None? then None else Some(TestRepeated(test.repeats.value))
  }

  function ReadReach(reach: Option<Reach>, loads: seq<Load>): Option<InvalidReason> {
    if reach.None? then Some(ReachUnknown(None))
    else
      match reach.value
      case InTest => None
      case OutsideTest => None
      case NotExecuted => Some(SiteNotExecuted(UnexecutedDetail(loads)))
      case UnknownReach(reason) => Some(ReachUnknown(Some(reason)))
  }

  function UnexecutedDetail(loads: seq<Load>): Option<Unexecuted> {
    if loads == [] then Some(NeverTransformed)
    else if loads[0].applied || exists l :: l in loads && l.applied then None
    else Some(NotApplied(loads[0].occurrences))
  }

  /** Reached only for a test that ran, with every hook passed and the mutated site executed. */
  function ReadBody(test: TestFacts, unhandledErrorCount: nat): RunReading {
    if test.state == Passed then RunSurvived
    else if test.errors == [] || exists e :: e in test.errors && !e.isAssertion then RunUnclear(NotAnAssertion)
    else if unhandledErrorCount > 0 then RunUnclear(UnhandledError)
    else WouldDetect
  }

  predicate PassedIn(run: RunFacts) { run.test.Some? && run.test.value.state == Passed }

  predicate EndedCleanly(ending: RunEnding) {
    ending.execution == Completed && !ending.forceStopped && !ending.cancelFailed
  }

  predicate Untroubled(baseline: BaselineFacts) {
    EndedCleanly(baseline.run.ending) && baseline.countedUnhandledErrorCount == 0
  }

  /** A clean run whose test, every hook passed, reached the mutated site. */
  ghost predicate ReachedCleanly(run: RunFacts) {
    && EndedCleanly(run.ending)
    && run.moduleFacts == Some(Collected(0, []))
    && run.test.Some?
    && var test := run.test.value;
       && test.hooks.Some? && (exists h :: h in test.hooks.value && h.name == REQUIRED_HOOK)
       && (forall h :: h in test.hooks.value ==> h.state == HOOK_PASSED)
       && (test.reach == Some(InTest) || test.reach == Some(OutsideTest))
  }

  /** A run that, taken alone, says its test rejects the mutation: it failed once, by assertions only. */
  ghost predicate RejectsMutation(run: RunFacts) {
    && ReachedCleanly(run)
    && var test := run.test.value;
       && test.state == Failed && test.repeats.None?
       && test.errors != [] && (forall e :: e in test.errors ==> e.isAssertion)
       && run.unhandledErrorCount == 0
  }

  ghost predicate CleanBaseline(baseline: BaselineFacts) {
    PassedIn(baseline.run) && Untroubled(baseline)
  }

  lemma ReadsWouldDetect(run: RunFacts)
    ensures ReadRun(run).WouldDetect? <==> RejectsMutation(run)
    ensures ReadRun(run).RunSurvived? <==> ReachedCleanly(run) && run.test.value.state == Passed
  {
    if run.moduleFacts.Some? && run.moduleFacts.value.Collected? {
      assert run.moduleFacts.value == Collected(run.moduleFacts.value.errorCount, run.moduleFacts.value.failingSuites);
    }
  }

  /**
   * Detected exactly when both baselines passed untroubled, the first and the confirming run each reject the mutation,
   * the run started next was recorded with no unhandled error, and the job closed clean.
   */
  lemma DetectedExactly(facts: ExperimentFacts)
    ensures Judge(facts) == Detected <==>
            && facts.own.WithRun?
            && facts.baseline.Some? && CleanBaseline(facts.baseline.value)
            && facts.restoredBaseline.Some? && facts.restoredBaseline.value.Recorded?
            && CleanBaseline(facts.restoredBaseline.value.baseline)
            && RejectsMutation(facts.own.run)
            && facts.own.confirming.Some? && facts.own.confirming.value.ConfirmedBy?
            && RejectsMutation(facts.own.confirming.value.run)
            && facts.own.nextRun == Some(NextRecorded(0))
            && facts.job == JobFacts(0, true)
  {
    if facts.own.WithRun? {
      ReadsWouldDetect(facts.own.run);
      if facts.own.confirming.Some? && facts.own.confirming.value.ConfirmedBy? {
        ReadsWouldDetect(facts.own.confirming.value.run);
      }
      hide ReadRun, RejectsMutation;
    }
  }

  /**
   * Survived exactly when both baselines passed untroubled and the test passed in a clean run that reached the
   * site.
   */
  lemma SurvivedExactly(facts: ExperimentFacts)
    ensures Judge(facts) == Survived <==>
            && facts.own.WithRun?
            && facts.baseline.Some? && CleanBaseline(facts.baseline.value)
            && facts.restoredBaseline.Some? && facts.restoredBaseline.value.Recorded?
            && CleanBaseline(facts.restoredBaseline.value.baseline)
            && (facts.own.confirming.Some? ==> facts.own.confirming.value.ConfirmedBy?)
            && ReachedCleanly(facts.own.run) && facts.own.run.test.value.state == Passed
  {
    if facts.own.WithRun? {
      ReadsWouldDetect(facts.own.run);
      hide ReadRun, ReachedCleanly;
    }
  }
}
