/** The raw records of a falsification job's runs, and the facts each experiment is judged from. */
module RunRecords {
  import opened Options
  import opened TestIdentities
  import opened Verdicts

  /**
   * An error as it crosses from the worker: its own name, its class's name, and whether a failed matcher is named
   * on it.
   */
  datatype RawError = RawError(name: Option<string>, className: Option<string>, namesMatcher: bool)

  datatype RecordedTest = RecordedTest(
    identity: TestIdentity, mode: string, state: TestState, errors: seq<RawError>, repeats: Option<nat>,
    hooks: Option<seq<Hook>>, reach: Option<Reach>)

  datatype ModuleReport = ModuleReport(projectName: string, modulePath: string)

  datatype SuiteErrors = SuiteErrors(namePath: seq<string>, errors: seq<RawError>)

  datatype RecordedModule =
    | CollectedModule(
        report: ModuleReport, errors: seq<RawError>, suiteErrors: seq<SuiteErrors>, tests: seq<RecordedTest>)
    | UncollectedModule(report: ModuleReport, state: string)

  datatype RunRecord = RunRecord(
    ending: RunEnding, modules: seq<RecordedModule>, unhandledErrors: seq<RawError>,
    unhandledErrorModules: seq<seq<ModuleReport>>)

  /** A run that left no record: the guard refused to start it, or it started and threw. */
  datatype UnrecordedRun = StaleModules | RunFailed(error: string)

  datatype RunOutcome = RanOutcome(record: RunRecord) | UnrecordedOutcome(run: UnrecordedRun)

  datatype ConfirmingRun =
    | ConfirmingRan(run: RunRecord, mutation: seq<Load>)
    | ConfirmingLeftNoRecord(unrecorded: UnrecordedRun)
    | ConfirmingStopped

  datatype NotRunReason =
    | UnreadableFile(error: string)
    | AnchorOccurs(count: nat)
    | WithoutProbeSite(site: string)
    | WithoutModule
    | WithoutBaseline
    | BaselineDidNotPass(state: Option<TestState>)
    | LeftNoRecord(run: UnrecordedRun)
    | Aborted

  datatype ExperimentRecord =
    | RanRecord(defectId: string, run: RunRecord, mutation: seq<Load>, confirming: Option<ConfirmingRun>)
    | NotRunRecord(defectId: string, reason: NotRunReason)

  datatype JobRuns = JobRuns(
    interrupted: bool, baseline: Option<RunOutcome>, experiments: seq<ExperimentRecord>, restored: Option<RunOutcome>)

  datatype Experiment = Experiment(defectId: string, test: TestIdentity, file: string)

  /** What the job's own process recorded once its instance had closed. */
  datatype JobEnd = JobEnd(unhandledErrorCount: nat, closed: bool)

  const ASSERTION_ERROR_NAME := "AssertionError"
  const PLAIN_ERROR_NAME := "Error"
  const EXTENDED_MATCHER_CLASS := "JestExtendError"

  /** The first test of a collected module with this identity. */
  function TestResultIn(modules: seq<RecordedModule>, identity: TestIdentity): Option<RecordedTest> {
    if modules == [] then None
    else
      var found := if modules[0].CollectedModule? then TestWith(modules[0].tests, identity) else None;
      if found.Some? then found else TestResultIn(modules[1..], identity)
  }

  function TestWith(tests: seq<RecordedTest>, identity: TestIdentity): Option<RecordedTest> {
    if tests == [] then None
    else if tests[0].identity == identity then Some(tests[0])
    else TestWith(tests[1..], identity)
  }

  predicate IsTestModule(report: ModuleReport, identity: TestIdentity) {
    report.projectName == identity.location.projectName && report.modulePath == identity.location.modulePath
  }

  function ModuleIn(modules: seq<RecordedModule>, identity: TestIdentity): Option<RecordedModule> {
    if modules == [] then None
    else if IsTestModule(modules[0].report, identity) then Some(modules[0])
    else ModuleIn(modules[1..], identity)
  }

  function ModuleFactsOf(found: Option<RecordedModule>): Option<ModuleFacts> {
    match found
    case None => None
    case Some(UncollectedModule(_, state)) => Some(Uncollected(state))
    case Some(CollectedModule(_, errors, suiteErrors, _)) =>
      Some(Collected(|errors|, seq(|suiteErrors|, i requires 0 <= i < |suiteErrors| => suiteErrors[i].namePath)))
  }

  function KnownName(error: RawError): Option<string> {
    if error.name == Some(PLAIN_ERROR_NAME) && error.className.Some? then error.className else error.name
  }

  function ErrorFactOf(error: RawError, assertionErrors: set<string>): ErrorFact {
    var name := KnownName(error);
    ErrorFact(
      || name == Some(ASSERTION_ERROR_NAME)
      || (error.className == Some(EXTENDED_MATCHER_CLASS) && error.namesMatcher)
      || (name.Some? && name.value in assertionErrors),
      name)
  }

  function TestFactsOf(test: RecordedTest, assertionErrors: set<string>): TestFacts {
    TestFacts(
      test.state, test.mode,
      seq(|test.errors|, i requires 0 <= i < |test.errors| => ErrorFactOf(test.errors[i], assertionErrors)),
      test.repeats, test.hooks, test.reach)
  }

  function RunFactsOf(
      record: RunRecord, mutation: seq<Load>, identity: TestIdentity, assertionErrors: set<string>): RunFacts
  {
    var test := TestResultIn(record.modules, identity);
    RunFacts(
      if test.None? then None else Some(TestFactsOf(test.value, assertionErrors)),
      ModuleFactsOf(ModuleIn(record.modules, identity)),
      |record.unhandledErrors|, record.ending, mutation)
  }

  /** An unhandled error counts against a test whose module it names, and against every test when it names no module. */
  predicate CountsAgainst(modules: seq<ModuleReport>, identity: TestIdentity) {
    modules == [] || exists m :: m in modules && IsTestModule(m, identity)
  }

  function Counted(errors: seq<seq<ModuleReport>>, identity: TestIdentity): (counted: seq<seq<ModuleReport>>)
    ensures counted == [] <==> forall e :: e in errors ==> !CountsAgainst(e, identity)
  {
    if errors == [] then []
    else (if CountsAgainst(errors[0], identity) then [errors[0]] else []) + Counted(errors[1..], identity)
  }

  function Unnamed(errors: seq<seq<ModuleReport>>): nat {
    if errors == [] then 0 else (if errors[0] == [] then 1 else 0) + Unnamed(errors[1..])
  }

  function BaselineFactsOf(record: RunRecord, identity: TestIdentity, assertionErrors: set<string>): BaselineFacts {
    var counted := Counted(record.unhandledErrorModules, identity);
    BaselineFacts(RunFactsOf(record, [], identity, assertionErrors), |counted|, Unnamed(counted))
  }

  function RestoredFactsOf(
      outcome: Option<RunOutcome>, identity: TestIdentity, assertionErrors: set<string>): Option<RestoredBaseline>
  {
    match outcome
    case None => None
    case Some(RanOutcome(record)) => Some(Recorded(BaselineFactsOf(record, identity, assertionErrors)))
    case Some(UnrecordedOutcome(_)) => Some(Unrecorded)
  }

  function ConfirmingFactsOf(
      confirming: ConfirmingRun, identity: TestIdentity, assertionErrors: set<string>): Confirming
  {
    match confirming
    case ConfirmingRan(run, mutation) => ConfirmedBy(RunFactsOf(run, mutation, identity, assertionErrors))
    case ConfirmingLeftNoRecord(_) => ConfirmingUnrecorded
    case ConfirmingStopped => ConfirmingInterrupted
  }

  function NotRunFactOf(reason: NotRunReason): NotRun {
    match reason
    case UnreadableFile(_) => Unreadable
    case AnchorOccurs(count) => AnchorCount(count)
    case WithoutProbeSite(_) => NoProbeSite
    case WithoutModule => NoModule
    case WithoutBaseline => BaselineNotRun
    case BaselineDidNotPass(_) => BaselineNotPassed
    case LeftNoRecord(_) => RunUnrecorded
    case Aborted => InterruptedNotRun
  }

  function RecordedRun(record: RunRecord): NextRun {
    NextRecorded(|record.unhandledErrors|)
  }

  function StartedWithoutRecord(run: UnrecordedRun): Option<NextRun> {
    if run.RunFailed? then Some(NextUnrecorded) else None
  }

  function StartedRun(record: ExperimentRecord): Option<NextRun> {
    match record
    case RanRecord(_, run, _, _) => Some(RecordedRun(run))
    case NotRunRecord(_, LeftNoRecord(run)) => StartedWithoutRecord(run)
    case NotRunRecord(_, _) => None
  }

  function FirstStarted(records: seq<ExperimentRecord>): Option<NextRun> {
    if records == [] then None
    else if StartedRun(records[0]).Some? then StartedRun(records[0])
    else FirstStarted(records[1..])
  }

  function RestoredStarted(restored: Option<RunOutcome>): Option<NextRun> {
    match restored
    case None => None
    case Some(RanOutcome(record)) => Some(RecordedRun(record))
    case Some(UnrecordedOutcome(run)) => StartedWithoutRecord(run)
  }

  /** The first run the job started after the experiment at `index`. */
  function NextRunAfter(runs: JobRuns, index: nat): Option<NextRun>
    requires index < |runs.experiments|
  {
    var started := FirstStarted(runs.experiments[index + 1..]);
    if started.Some? then started else RestoredStarted(runs.restored)
  }

  predicate Paired(runs: JobRuns, experiments: seq<Experiment>) {
    && |runs.experiments| == |experiments|
    && forall i :: 0 <= i < |experiments| ==> runs.experiments[i].defectId == experiments[i].defectId
  }

  function OwnFactsOf(
      runs: JobRuns, index: nat, identity: TestIdentity, assertionErrors: set<string>): OwnFacts
    requires index < |runs.experiments|
  {
    match runs.experiments[index]
    case NotRunRecord(_, reason) => WithoutRun(NotRunFactOf(reason))
    case RanRecord(_, run, mutation, confirming) =>
      WithRun(
        RunFactsOf(run, mutation, identity, assertionErrors),
        if confirming.None? then None else Some(ConfirmingFactsOf(confirming.value, identity, assertionErrors)),
        if confirming.Some? && confirming.value.ConfirmingRan? then NextRunAfter(runs, index) else None)
  }

  function FactsAt(
      runs: JobRuns, end: JobEnd, index: nat, identity: TestIdentity, assertionErrors: set<string>): ExperimentFacts
    requires index < |runs.experiments|
  {
    ExperimentFacts(
      if runs.baseline.Some? && runs.baseline.value.RanOutcome?
      then Some(BaselineFactsOf(runs.baseline.value.record, identity, assertionErrors)) else None,
      RestoredFactsOf(runs.restored, identity, assertionErrors),
      JobFacts(end.unhandledErrorCount, end.closed),
      OwnFactsOf(runs, index, identity, assertionErrors))
  }

  /** Each experiment's facts, in order; none, as the job fails, when records and experiments do not pair. */
  function FactsOf(
      runs: JobRuns, end: JobEnd, experiments: seq<Experiment>, assertionErrors: set<string>):
      (facts: Option<seq<ExperimentFacts>>)
  {
    if !Paired(runs, experiments) then None
    else Some(seq(|experiments|, i requires 0 <= i < |experiments| =>
                FactsAt(runs, end, i, experiments[i].test, assertionErrors)))
  }

  /**
   * What a baseline must show of a test for its experiment to be judged: it passed, in a clean run, troubled by no
   * error.
   */
  ghost predicate CleanFor(record: RunRecord, identity: TestIdentity) {
    && TestResultIn(record.modules, identity).Some? && TestResultIn(record.modules, identity).value.state == Passed
    && EndedCleanly(record.ending)
    && forall e :: e in record.unhandledErrorModules ==>
         e != [] && forall m :: m in e ==> !IsTestModule(m, identity)
  }

  lemma CleanForExactly(record: RunRecord, identity: TestIdentity, assertionErrors: set<string>)
    ensures CleanBaseline(BaselineFactsOf(record, identity, assertionErrors)) <==> CleanFor(record, identity)
  {
    var counted := Counted(record.unhandledErrorModules, identity);
    assert |counted| == 0 <==> counted == [];
  }
}
