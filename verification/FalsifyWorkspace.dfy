/**
 * One falsification job: a baseline, each planned experiment's runs, the restored baseline, ended by an abort at
 * any run.
 */
module FalsificationJobs {
  import opened Options
  import opened TestIdentities
  import opened Verdicts
  import opened RunRecords

  /** How one run ended. An abort that came before it started or while it ran leaves no result. */
  datatype RunStep =
    | StepRan(record: RunRecord, mutation: seq<Load>)
    | StepUnrecorded(run: UnrecordedRun)
    | StepInterrupted

  datatype Which = Baseline | First(index: nat) | Confirm(index: nat) | Restored

  /** A run the job asked for, and how it ended. */
  datatype Entry = Entry(which: Which, step: RunStep)

  datatype Probed = FileUnreadable(error: string) | AnchorCounted(count: nat) | NoSite(site: string) | Mutated

  /** The job's inputs: its experiments, what their files read and probed as, and the modules its workspace resolved. */
  datatype Job = Job(
    experiments: seq<Experiment>, probed: seq<Probed>, modules: seq<Location>, assertionErrors: set<string>)
  {
    ghost predicate Valid() { |probed| == |experiments| }

    /** Why the experiment is decided before any run, if it is. */
    function Decided(i: nat): Option<NotRunReason>
      requires Valid() && i < |experiments|
    {
      match probed[i]
      case FileUnreadable(error) => Some(UnreadableFile(error))
      case AnchorCounted(count) => Some(AnchorOccurs(count))
      case NoSite(site) => Some(WithoutProbeSite(site))
      case Mutated => if experiments[i].test.location in modules then None else Some(WithoutModule)
    }

    predicate WouldDetect(i: nat, run: RunRecord, mutation: seq<Load>)
      requires i < |experiments|
    {
      ReadRun(RunFactsOf(run, mutation, experiments[i].test, assertionErrors)).WouldDetect?
    }
  }

  type Records = seq<Option<ExperimentRecord>>

  predicate WasInterrupted(record: ExperimentRecord) {
    match record
    case RanRecord(_, _, _, confirming) => confirming == Some(ConfirmingStopped)
    case NotRunRecord(_, reason) => reason == Aborted
  }

  function StepOf(outcome: RunOutcome): RunStep {
    match outcome
    case RanOutcome(record) => StepRan(record, [])
    case UnrecordedOutcome(run) => StepUnrecorded(run)
  }

  function OutcomeOf(step: RunStep): RunOutcome
    requires !step.StepInterrupted?
  {
    match step
    case StepRan(record, _) => RanOutcome(record)
    case StepUnrecorded(run) => UnrecordedOutcome(run)
  }

  function ConfirmingOf(step: RunStep): ConfirmingRun {
    match step
    case StepRan(record, mutation) => ConfirmingRan(record, mutation)
    case StepUnrecorded(run) => ConfirmingLeftNoRecord(run)
    case StepInterrupted => ConfirmingStopped
  }

  function ConfirmingStep(confirming: ConfirmingRun): RunStep {
    match confirming
    case ConfirmingRan(record, mutation) => StepRan(record, mutation)
    case ConfirmingLeftNoRecord(run) => StepUnrecorded(run)
    case ConfirmingStopped => StepInterrupted
  }

  /** The runs a record says its experiment was given, when nothing had stopped the job before it. */
  ghost function EntriesOf(i: nat, record: Option<ExperimentRecord>): seq<Entry> {
    match record
    case Some(RanRecord(_, run, mutation, confirming)) =>
      [Entry(First(i), StepRan(run, mutation))]
      + (if confirming.Some? then [Entry(Confirm(i), ConfirmingStep(confirming.value))] else [])
    case Some(NotRunRecord(_, LeftNoRecord(run))) => [Entry(First(i), StepUnrecorded(run))]
    case Some(NotRunRecord(_, Aborted)) => [Entry(First(i), StepInterrupted)]
    case _ => []
  }

  predicate Stopped(log: seq<Entry>) {
    log != [] && log[|log| - 1].step.StepInterrupted?
  }

  /** The runs of the first `n` experiments, none of them after an interrupted one. */
  ghost function EntriesUpTo(records: Records, n: nat): seq<Entry>
    requires n <= |records|
  {
    if n == 0 then []
    else
      var before := EntriesUpTo(records, n - 1);
      if Stopped(before) then before else before + EntriesOf(n - 1, records[n - 1])
  }

  /** Why the baseline leaves the experiment no run, if it does. */
  function BaselineReason(baseline: RunOutcome, test: TestIdentity): Option<NotRunReason> {
    match baseline
    case UnrecordedOutcome(_) => Some(WithoutBaseline)
    case RanOutcome(record) =>
      var result := TestResultIn(record.modules, test);
      if result.None? then Some(BaselineDidNotPass(None))
      else if result.value.state != Passed then Some(BaselineDidNotPass(Some(result.value.state)))
      else None
  }

  /** The record is one its experiment may have, the job stopped before it or not. */
  ghost predicate Fits(job: Job, baseline: RunOutcome, stopped: bool, i: nat, record: ExperimentRecord)
    requires job.Valid() && i < |job.experiments|
  {
    && record.defectId == job.experiments[i].defectId
    && if job.Decided(i).Some? then record == NotRunRecord(record.defectId, job.Decided(i).value)
       else if stopped then record == NotRunRecord(record.defectId, Aborted)
       else
         var reason := BaselineReason(baseline, job.experiments[i].test);
         if reason.Some? then record == NotRunRecord(record.defectId, reason.value)
         else
           match record
           case RanRecord(_, run, mutation, confirming) => confirming.Some? <==> job.WouldDetect(i, run, mutation)
           case NotRunRecord(_, why) => why.LeftNoRecord? || why.Aborted?
  }

  ghost function Somes(records: seq<ExperimentRecord>): Records {
    seq(|records|, i requires 0 <= i < |records| => Some(records[i]))
  }

  ghost predicate HasPlanned(job: Job)
    requires job.Valid()
  {
    exists i :: 0 <= i < |job.experiments| && job.Decided(i).None?
  }

  ghost predicate AnyRan(records: seq<ExperimentRecord>) {
    exists i :: 0 <= i < |records| && records[i].RanRecord?
  }

  ghost function Entries(runs: JobRuns): seq<Entry> {
    EntriesUpTo(Somes(runs.experiments), |runs.experiments|)
  }

  /** Every run the job's record says it asked for, in order. */
  ghost function LogOf(job: Job, runs: JobRuns): seq<Entry>
    requires job.Valid()
  {
    if !HasPlanned(job) then []
    else if runs.baseline.None? then [Entry(Baseline, StepInterrupted)]
    else
      var before := [Entry(Baseline, StepOf(runs.baseline.value))] + Entries(runs);
      if Stopped(before) || !AnyRan(runs.experiments) then before
      else before + [Entry(Restored, if runs.restored.None? then StepInterrupted else StepOf(runs.restored.value))]
  }

  ghost predicate EachFits(job: Job, baseline: RunOutcome, runs: JobRuns)
    requires job.Valid() && |runs.experiments| == |job.experiments|
  {
    forall i :: 0 <= i < |job.experiments| ==>
      Fits(job, baseline, Stopped(EntriesUpTo(Somes(runs.experiments), i)), i, runs.experiments[i])
  }

  /** The record of a job whose runs were these: every field of it is decided by them. */
  ghost predicate Explains(job: Job, runs: JobRuns, log: seq<Entry>)
    requires job.Valid()
  {
    && |runs.experiments| == |job.experiments|
    && log == LogOf(job, runs)
    && (if !HasPlanned(job) then
          && !runs.interrupted && runs.baseline.None? && runs.restored.None?
          && forall i :: 0 <= i < |job.experiments| ==> DecidedRecord(job, i, runs.experiments[i])
        else if runs.baseline.None? then
          && runs.interrupted && runs.restored.None?
          && forall i :: 0 <= i < |job.experiments| ==> AbortedRecord(job, i, runs.experiments[i])
        else
          && EachFits(job, runs.baseline.value, runs)
          && (if Stopped(Entries(runs)) then runs.interrupted && runs.restored.None?
              else if !AnyRan(runs.experiments) then !runs.interrupted && runs.restored.None?
              else runs.interrupted <==> runs.restored.None?))
  }

  ghost predicate DecidedRecord(job: Job, i: nat, record: ExperimentRecord)
    requires job.Valid() && i < |job.experiments|
  {
    job.Decided(i).Some? && record == NotRunRecord(job.experiments[i].defectId, job.Decided(i).value)
  }

  /** Decided before any run, or aborted. */
  ghost predicate AbortedRecord(job: Job, i: nat, record: ExperimentRecord)
    requires job.Valid() && i < |job.experiments|
  {
    record == NotRunRecord(
      job.experiments[i].defectId, if job.Decided(i).Some? then job.Decided(i).value else Aborted)
  }

  function NotRunAs(job: Job, i: nat, reason: NotRunReason): ExperimentRecord
    requires i < |job.experiments|
  {
    NotRunRecord(job.experiments[i].defectId, reason)
  }

  /** `planned` lists, in order, the experiments not decided before any run. */
  ghost predicate Plans(job: Job, planned: seq<nat>)
    requires job.Valid()
  {
    && (forall p, q :: 0 <= p < q < |planned| ==> planned[p] < planned[q])
    && (forall p :: 0 <= p < |planned| ==> planned[p] < |job.experiments| && job.Decided(planned[p]).None?)
    && (forall i :: 0 <= i < |job.experiments| && job.Decided(i).None? ==> i in planned)
  }

  /** The records of the experiments decided before any run, and of the first `n` planned ones. */
  ghost predicate Filled(job: Job, records: Records, planned: seq<nat>, n: nat)
    requires job.Valid() && Plans(job, planned) && n <= |planned|
  {
    && |records| == |job.experiments|
    && (forall i :: 0 <= i < |records| && job.Decided(i).Some? ==>
          records[i] == Some(NotRunAs(job, i, job.Decided(i).value)))
    && (forall q :: 0 <= q < n ==> records[planned[q]].Some?)
    && (forall q :: n <= q < |planned| ==> records[planned[q]].None?)
  }

  lemma {:induction false} SameEntries(a: Records, b: Records, n: nat)
    requires n <= |a| && n <= |b| && a[..n] == b[..n]
    ensures EntriesUpTo(a, n) == EntriesUpTo(b, n)
  {
    if n > 0 {
      assert a[..n - 1] == a[..n][..n - 1] && b[..n - 1] == b[..n][..n - 1];
      assert a[n - 1] == a[..n][n - 1] && b[n - 1] == b[..n][n - 1];
      SameEntries(a, b, n - 1);
    }
  }

  /** The records from `i` on stand for no run. */
  ghost predicate Silent(records: Records, i: nat) {
    forall j :: i <= j < |records| ==> EntriesOf(j, records[j]) == []
  }

  lemma SilentAt(records: Records, i: nat, j: nat)
    requires Silent(records, i) && i <= j < |records|
    ensures EntriesOf(j, records[j]) == []
  {
  }

  lemma {:induction false} NoEntriesAfter(records: Records, i: nat, n: nat)
    requires i <= n <= |records| && Silent(records, i)
    ensures EntriesUpTo(records, n) == EntriesUpTo(records, i)
    decreases n
  {
    hide EntriesOf, Silent;
    if i < n {
      NoEntriesAfter(records, i, n - 1);
      SilentAt(records, i, n - 1);
    }
  }

  lemma EntriesNext(records: Records, i: nat)
    requires i < |records|
    ensures var before := EntriesUpTo(records, i);
            EntriesUpTo(records, i + 1) == if Stopped(before) then before else before + EntriesOf(i, records[i])
  {
    hide EntriesOf;
  }

  lemma SetSilent(records: Records, i: nat, record: ExperimentRecord)
    requires i < |records| && records[i].None? && Silent(records, i + 1)
    ensures Silent(records, i) && Silent(records[i := Some(record)], i + 1)
  {
    assert EntriesOf(i, records[i]) == [];
    hide EntriesOf;
  }

  /** Recording an experiment adds its runs after those of the experiments before it. */
  lemma SetRecord(records: Records, i: nat, record: ExperimentRecord)
    requires i < |records| && records[i].None? && Silent(records, i + 1)
    ensures var all, now := EntriesUpTo(records, |records|), records[i := Some(record)];
            && (forall k :: 0 <= k <= i ==> EntriesUpTo(now, k) == EntriesUpTo(records, k))
            && EntriesUpTo(now, i) == all
            && EntriesUpTo(now, |now|) == if Stopped(all) then all else all + EntriesOf(i, Some(record))
  {
    hide *;
    var now := records[i := Some(record)];
    SetSilent(records, i, record);
    forall k | 0 <= k <= i
      ensures EntriesUpTo(now, k) == EntriesUpTo(records, k)
    {
      assert now[..k] == records[..k];
      SameEntries(now, records, k);
    }
    NoEntriesAfter(records, i, |records|);
    NoEntriesAfter(now, i + 1, |now|);
    EntriesNext(now, i);
  }

  lemma UndecidedAfter(job: Job, records: Records, planned: seq<nat>, p: nat)
    requires job.Valid() && Plans(job, planned) && p < |planned| && Filled(job, records, planned, p)
    ensures Silent(records, planned[p] + 1)
  {
    forall j | planned[p] < j < |records|
      ensures EntriesOf(j, records[j]) == []
    {
      if job.Decided(j).None? {
        var q :| 0 <= q < |planned| && planned[q] == j;
        assert q > p;
      }
    }
  }

  /** One loaded instance's runs. Each run may end in any way the environment decides, an abort among them. */
  class FalsificationRuns {
    const job: Job
    var aborted: bool
    ghost var log: seq<Entry>

    constructor (job: Job)
      ensures this.job == job && log == []
    {
      this.job, aborted, log := job, false, [];
    }

    /** A run asked for once an abort came starts nothing; the environment decides how any other ends. */
    method Run(which: Which) returns (step: RunStep)
      modifies this
      ensures log == old(log) + [Entry(which, step)]
      ensures old(aborted) ==> step.StepInterrupted?
      ensures step.StepInterrupted? ==> aborted
      ensures step.StepRan? && (which.Baseline? || which.Restored?) ==> step.mutation == []
    {
      if aborted {
        step := StepInterrupted;
      } else {
        step := *;
        var abortNow: bool := *;
        aborted := abortNow || step.StepInterrupted?;
        if step.StepRan? && (which.Baseline? || which.Restored?) { step := step.(mutation := []); }
      }
      log := log + [Entry(which, step)];
    }

    method PlanAll() returns (planned: seq<nat>, records: Records)
      requires job.Valid()
      ensures Plans(job, planned) && Filled(job, records, planned, 0)
    {
      planned, records := [], [];
      for i := 0 to |job.experiments|
        invariant |records| == i
        invariant forall p, q :: 0 <= p < q < |planned| ==> planned[p] < planned[q]
        invariant forall p :: 0 <= p < |planned| ==> planned[p] < i && job.Decided(planned[p]).None?
        invariant forall k :: 0 <= k < i && job.Decided(k).None? ==> k in planned
        invariant forall k :: 0 <= k < i ==>
                    records[k] == if job.Decided(k).Some? then Some(NotRunAs(job, k, job.Decided(k).value)) else None
      {
        if job.Decided(i).Some? {
          records := records + [Some(NotRunAs(job, i, job.Decided(i).value))];
        } else {
          records := records + [None];
          planned := planned + [i];
        }
      }
    }

    /** Runs the experiment, and at once a second time when its run would be a detection. */
    method RunExperiment(i: nat) returns (record: ExperimentRecord)
      requires job.Valid() && i < |job.experiments|
      modifies this
      ensures record.defectId == job.experiments[i].defectId
      ensures log == old(log) + EntriesOf(i, Some(record))
      ensures match record
              case RanRecord(_, run, mutation, confirming) => confirming.Some? <==> job.WouldDetect(i, run, mutation)
              case NotRunRecord(_, reason) => reason.LeftNoRecord? || reason.Aborted?
    {
      var id := job.experiments[i].defectId;
      var step := Run(First(i));
      match step
      case StepInterrupted => record := NotRunRecord(id, Aborted);
      case StepUnrecorded(run) => record := NotRunRecord(id, LeftNoRecord(run));
      case StepRan(run, mutation) =>
        record := RanRecord(id, run, mutation, None);
        var detects := job.WouldDetect(i, run, mutation);
        if detects {
          hide Job.WouldDetect;
          var confirming := Run(Confirm(i));
          record := record.(confirming := Some(ConfirmingOf(confirming)));
        }
    }

    method ExperimentAfter(baseline: RunOutcome, i: nat) returns (record: ExperimentRecord)
      requires job.Valid() && i < |job.experiments| && job.Decided(i).None?
      modifies this
      ensures Fits(job, baseline, false, i, record)
      ensures log == old(log) + EntriesOf(i, Some(record))
    {
      var reason := BaselineReason(baseline, job.experiments[i].test);
      if reason.Some? {
        record := NotRunAs(job, i, reason.value);
        return;
      }
      record := RunExperiment(i);
      hide Job.WouldDetect, EntriesOf;
    }

    /** Once an abort interrupts one experiment, every later one is recorded interrupted without a run. */
    method ExperimentsAfter(baseline: RunOutcome, planned: seq<nat>, decided: Records)
        returns (records: Records, interrupted: bool, anyRan: bool)
      requires job.Valid() && Plans(job, planned) && Filled(job, decided, planned, 0)
      modifies this
      ensures Filled(job, records, planned, |planned|) && FitsUpTo(job, baseline, records, planned, |planned|)
      ensures log == old(log) + EntriesUpTo(records, |records|)
      ensures interrupted == Stopped(EntriesUpTo(records, |records|))
      ensures anyRan == SomeRan(records)
    {
      hide *;
      records, interrupted, anyRan := decided, false, false;
      ghost var start := log;
      DecidedSilent(job, baseline, planned, records);
      for p := 0 to |planned|
        invariant Filled(job, records, planned, p) && FitsUpTo(job, baseline, records, planned, p)
        invariant |records| == |job.experiments|
        invariant log == start + EntriesUpTo(records, |records|)
        invariant interrupted == Stopped(EntriesUpTo(records, |records|))
        invariant anyRan == SomeRan(records)
      {
        var i := planned[p];
        NextPlanned(job, records, planned, p);
        UndecidedAfter(job, records, planned, p);
        var record;
        if interrupted {
          record := NotRunAs(job, i, Aborted);
          AbortedFits(job, baseline, i);
        } else {
          record := ExperimentAfter(baseline, i);
        }
        SetRecord(records, i, record);
        SetFits(job, baseline, records, planned, p, record);
        SetStops(EntriesUpTo(records, |records|), i, record);
        SetRan(records, i, record);
        records := records[i := Some(record)];
        anyRan := anyRan || record.RanRecord?;
        interrupted := interrupted || WasInterrupted(record);
      }
    }

    method RunAll() returns (runs: JobRuns)
      requires job.Valid() && log == []
      modifies this
      ensures Explains(job, runs, log)
    {
      hide *;
      var planned, records := PlanAll();
      if |planned| == 0 {
        runs := JobRuns(false, None, Ordered(records), None);
        NonePlanned(job, records, planned, runs);
        return;
      }
      SomePlanned(job, planned);
      var baseline := Run(Baseline);
      if baseline.StepInterrupted? {
        records := MarkAll(planned, records);
        runs := JobRuns(true, None, Ordered(records), None);
        AbortedAtBaseline(job, records, planned, runs);
        assert log == [Entry(Baseline, StepInterrupted)];
        return;
      }
      var outcome := OutcomeOf(baseline);
      var interrupted, anyRan;
      records, interrupted, anyRan := ExperimentsAfter(outcome, planned, records);
      OutcomeStep(baseline);
      runs := JobRuns(interrupted, Some(outcome), Ordered(records), None);
      if interrupted || !anyRan {
        EndsThere(interrupted, anyRan, interrupted);
        Concludes(job, outcome, records, planned, runs, log);
        return;
      }
      var restored := Run(Restored);
      if restored.StepInterrupted? {
        runs := runs.(interrupted := true);
        EndsRestored(true, None);
      } else {
        runs := runs.(restored := Some(OutcomeOf(restored)));
        OutcomeStep(restored);
        EndsRestored(false, runs.restored);
      }
      Concludes(job, outcome, records, planned, runs, log);
    }

    method MarkAll(planned: seq<nat>, decided: Records) returns (records: Records)
      requires job.Valid() && Plans(job, planned) && Filled(job, decided, planned, 0)
      ensures Filled(job, records, planned, |planned|)
      ensures forall q :: 0 <= q < |planned| ==> records[planned[q]] == Some(NotRunAs(job, planned[q], Aborted))
    {
      records := decided;
      for p := 0 to |planned|
        invariant Filled(job, records, planned, p)
        invariant forall q :: 0 <= q < p ==> records[planned[q]] == Some(NotRunAs(job, planned[q], Aborted))
      {
        records := records[planned[p] := Some(NotRunAs(job, planned[p], Aborted))];
      }
    }
  }

  /** The record of each of the first `n` planned experiments is one it may have after those before it. */
  ghost predicate FitsUpTo(job: Job, baseline: RunOutcome, records: Records, planned: seq<nat>, n: nat)
    requires job.Valid() && Plans(job, planned) && n <= |planned| && Filled(job, records, planned, n)
  {
    forall q :: 0 <= q < n ==> FitsAt(job, baseline, records, planned[q])
  }

  ghost predicate FitsAt(job: Job, baseline: RunOutcome, records: Records, i: nat)
    requires job.Valid() && i < |job.experiments| == |records| && records[i].Some?
  {
    Fits(job, baseline, Stopped(EntriesUpTo(records, i)), i, records[i].value)
  }

  ghost predicate SomeRan(records: Records) {
    exists i :: 0 <= i < |records| && records[i].Some? && records[i].value.RanRecord?
  }

  lemma DecidedSilent(job: Job, baseline: RunOutcome, planned: seq<nat>, records: Records)
    requires job.Valid() && Plans(job, planned) && Filled(job, records, planned, 0)
    ensures |records| == |job.experiments| && FitsUpTo(job, baseline, records, planned, 0)
    ensures EntriesUpTo(records, |records|) == [] && !Stopped([]) && !SomeRan(records)
  {
    forall i | 0 <= i < |records|
      ensures EntriesOf(i, records[i]) == [] && (records[i].Some? ==> records[i].value.NotRunRecord?)
    {
      if job.Decided(i).None? {
        var q :| 0 <= q < |planned| && planned[q] == i;
      }
    }
    assert Silent(records, 0);
    hide Silent, EntriesOf;
    NoEntriesAfter(records, 0, |records|);
  }

  lemma NextPlanned(job: Job, records: Records, planned: seq<nat>, p: nat)
    requires job.Valid() && Plans(job, planned) && p < |planned| && Filled(job, records, planned, p)
    ensures planned[p] < |job.experiments| == |records| && job.Decided(planned[p]).None? && records[planned[p]].None?
  {
  }

  lemma AbortedFits(job: Job, baseline: RunOutcome, i: nat)
    requires job.Valid() && i < |job.experiments| && job.Decided(i).None?
    ensures Fits(job, baseline, true, i, NotRunAs(job, i, Aborted))
  {
  }

  lemma SetFilled(job: Job, records: Records, planned: seq<nat>, p: nat, record: ExperimentRecord)
    requires job.Valid() && Plans(job, planned) && p < |planned| && Filled(job, records, planned, p)
    ensures Filled(job, records[planned[p] := Some(record)], planned, p + 1)
    ensures forall q :: 0 <= q < p ==> planned[q] < planned[p]
  {
  }

  lemma SetFits(
      job: Job, baseline: RunOutcome, records: Records, planned: seq<nat>, p: nat, record: ExperimentRecord)
    requires job.Valid() && Plans(job, planned) && p < |planned| && Filled(job, records, planned, p)
    requires FitsUpTo(job, baseline, records, planned, p)
    requires Fits(job, baseline, Stopped(EntriesUpTo(records, |records|)), planned[p], record)
    ensures var now := records[planned[p] := Some(record)];
            Filled(job, now, planned, p + 1) && FitsUpTo(job, baseline, now, planned, p + 1)
  {
    var i := planned[p];
    var now := records[i := Some(record)];
    NextPlanned(job, records, planned, p);
    UndecidedAfter(job, records, planned, p);
    SetRecord(records, i, record);
    SetFilled(job, records, planned, p, record);
    hide Fits, EntriesUpTo, Stopped, Silent, Filled, Plans;
    forall q | 0 <= q < p + 1
      ensures FitsAt(job, baseline, now, planned[q])
    {
      if q < p { assert planned[q] < i && FitsAt(job, baseline, records, planned[q]); }
    }
    hide FitsAt;
  }

  lemma SetStops(all: seq<Entry>, i: nat, record: ExperimentRecord)
    ensures Stopped(if Stopped(all) then all else all + EntriesOf(i, Some(record))) <==>
            Stopped(all) || WasInterrupted(record)
  {
  }

  lemma SetRan(records: Records, i: nat, record: ExperimentRecord)
    requires i < |records| && records[i].None?
    ensures SomeRan(records[i := Some(record)]) <==> SomeRan(records) || record.RanRecord?
  {
    var now := records[i := Some(record)];
    if record.RanRecord? { assert now[i].value.RanRecord?; }
    if SomeRan(records) {
      var k :| 0 <= k < |records| && records[k].Some? && records[k].value.RanRecord?;
      assert now[k] == records[k];
    }
  }

  /** The records that are there, in the experiments' order. */
  function Ordered(records: Records): (ordered: seq<ExperimentRecord>)
    ensures (forall i :: 0 <= i < |records| ==> records[i].Some?) ==>
              |ordered| == |records| && forall i :: 0 <= i < |records| ==> ordered[i] == records[i].value
  {
    if records == [] then []
    else (if records[0].Some? then [records[0].value] else []) + Ordered(records[1..])
  }

  /** Once every planned experiment is recorded, every experiment is. */
  lemma AllRecorded(job: Job, records: Records, planned: seq<nat>)
    requires job.Valid() && Plans(job, planned) && Filled(job, records, planned, |planned|)
    ensures forall i :: 0 <= i < |records| ==> records[i].Some?
    ensures |Ordered(records)| == |job.experiments| && Somes(Ordered(records)) == records
    ensures AnyRan(Ordered(records)) <==> SomeRan(records)
  {
    forall i | 0 <= i < |records|
      ensures records[i].Some?
    {
      if job.Decided(i).None? {
        var q :| 0 <= q < |planned| && planned[q] == i;
      }
    }
    var ordered := Ordered(records);
    assert forall i :: 0 <= i < |records| ==> Somes(ordered)[i] == records[i];
    if SomeRan(records) {
      var i :| 0 <= i < |records| && records[i].Some? && records[i].value.RanRecord?;
      assert ordered[i].RanRecord?;
    }
    if AnyRan(ordered) {
      var i :| 0 <= i < |ordered| && ordered[i].RanRecord?;
      assert records[i].value.RanRecord?;
    }
  }

  lemma NonePlanned(job: Job, records: Records, planned: seq<nat>, runs: JobRuns)
    requires job.Valid() && Plans(job, planned) && Filled(job, records, planned, 0) && planned == []
    requires runs == JobRuns(false, None, Ordered(records), None)
    ensures Explains(job, runs, [])
  {
    AllRecorded(job, records, planned);
    assert !HasPlanned(job);
    forall i | 0 <= i < |job.experiments|
      ensures DecidedRecord(job, i, runs.experiments[i])
    {
      assert job.Decided(i).Some?;
      assert Some(runs.experiments[i]) == records[i];
    }
    hide DecidedRecord, Filled, Plans, Entries, Fits;
  }

  lemma SomePlanned(job: Job, planned: seq<nat>)
    requires job.Valid() && Plans(job, planned) && planned != []
    ensures HasPlanned(job)
  {
    assert job.Decided(planned[0]).None?;
  }

  lemma AbortedAtBaseline(job: Job, records: Records, planned: seq<nat>, runs: JobRuns)
    requires job.Valid() && Plans(job, planned) && Filled(job, records, planned, |planned|) && HasPlanned(job)
    requires forall q :: 0 <= q < |planned| ==> records[planned[q]] == Some(NotRunAs(job, planned[q], Aborted))
    requires runs == JobRuns(true, None, Ordered(records), None)
    ensures Explains(job, runs, [Entry(Baseline, StepInterrupted)])
  {
    AllRecorded(job, records, planned);
    forall i | 0 <= i < |job.experiments|
      ensures AbortedRecord(job, i, runs.experiments[i])
    {
      assert Some(runs.experiments[i]) == records[i];
      if job.Decided(i).None? {
        var q :| 0 <= q < |planned| && planned[q] == i;
      }
    }
    hide AbortedRecord, Filled, Plans, Entries, Fits, HasPlanned;
  }

  lemma OutcomeStep(step: RunStep)
    requires !step.StepInterrupted? && (step.StepRan? ==> step.mutation == [])
    ensures StepOf(OutcomeOf(step)) == step
  {
  }

  /** Whether an abort, and whether the restored baseline, ends the runs after the experiments. */
  ghost predicate Closes(stopped: bool, anyRan: bool, interrupted: bool, restored: Option<RunOutcome>) {
    if stopped then interrupted && restored.None?
    else if !anyRan then !interrupted && restored.None?
    else interrupted <==> restored.None?
  }

  ghost function LastEntries(stopped: bool, anyRan: bool, restored: Option<RunOutcome>): seq<Entry> {
    if stopped || !anyRan then []
    else [Entry(Restored, if restored.None? then StepInterrupted else StepOf(restored.value))]
  }

  lemma EndsThere(stopped: bool, anyRan: bool, interrupted: bool)
    requires (stopped || !anyRan) && interrupted == stopped
    ensures Closes(stopped, anyRan, interrupted, None) && LastEntries(stopped, anyRan, None) == []
  {
  }

  lemma EndsRestored(interrupted: bool, restored: Option<RunOutcome>)
    requires interrupted <==> restored.None?
    ensures Closes(false, true, interrupted, restored)
    ensures LastEntries(false, true, restored) ==
            [Entry(Restored, if restored.None? then StepInterrupted else StepOf(restored.value))]
  {
  }

  lemma Concludes(
      job: Job, baseline: RunOutcome, records: Records, planned: seq<nat>, runs: JobRuns, log: seq<Entry>)
    requires job.Valid() && Plans(job, planned) && Filled(job, records, planned, |planned|) && HasPlanned(job)
    requires FitsUpTo(job, baseline, records, planned, |planned|)
    requires runs.baseline == Some(baseline) && runs.experiments == Ordered(records)
    requires Closes(Stopped(EntriesUpTo(records, |records|)), SomeRan(records), runs.interrupted, runs.restored)
    requires log == [Entry(Baseline, StepOf(baseline))] + EntriesUpTo(records, |records|)
                    + LastEntries(Stopped(EntriesUpTo(records, |records|)), SomeRan(records), runs.restored)
    ensures Explains(job, runs, log)
  {
    hide *;
    AllRecorded(job, records, planned);
    RecordsFit(job, baseline, records, planned, runs);
    Concluded(job, baseline, records, runs, log);
  }

  lemma RecordsFit(job: Job, baseline: RunOutcome, records: Records, planned: seq<nat>, runs: JobRuns)
    requires job.Valid() && Plans(job, planned) && Filled(job, records, planned, |planned|)
    requires FitsUpTo(job, baseline, records, planned, |planned|)
    requires runs.experiments == Ordered(records)
    ensures |runs.experiments| == |job.experiments| && EachFits(job, baseline, runs)
  {
    AllRecorded(job, records, planned);
    forall i | 0 <= i < |job.experiments|
      ensures Fits(job, baseline, Stopped(EntriesUpTo(Somes(runs.experiments), i)), i, runs.experiments[i])
    {
      assert Some(runs.experiments[i]) == records[i];
      if job.Decided(i).None? {
        var q :| 0 <= q < |planned| && planned[q] == i;
        assert FitsAt(job, baseline, records, planned[q]);
      }
      hide EntriesUpTo, Stopped;
    }
  }

  lemma Concluded(job: Job, baseline: RunOutcome, records: Records, runs: JobRuns, log: seq<Entry>)
    requires job.Valid() && HasPlanned(job) && runs.baseline == Some(baseline)
    requires |runs.experiments| == |job.experiments| && EachFits(job, baseline, runs)
    requires Somes(runs.experiments) == records && (AnyRan(runs.experiments) <==> SomeRan(records))
    requires Closes(Stopped(EntriesUpTo(records, |records|)), SomeRan(records), runs.interrupted, runs.restored)
    requires log == [Entry(Baseline, StepOf(baseline))] + EntriesUpTo(records, |records|)
                    + LastEntries(Stopped(EntriesUpTo(records, |records|)), SomeRan(records), runs.restored)
    ensures Explains(job, runs, log)
  {
    hide EachFits, EntriesUpTo, StepOf, SomeRan, AnyRan, HasPlanned;
    assert |records| == |runs.experiments|;
    StepRecorded(baseline);
    assert Entries(runs) == EntriesUpTo(records, |records|);
    var before := [Entry(Baseline, StepOf(baseline))] + Entries(runs);
    assert Stopped(before) <==> Stopped(Entries(runs));
  }

  lemma StepRecorded(outcome: RunOutcome)
    ensures !StepOf(outcome).StepInterrupted?
  {
  }
}
