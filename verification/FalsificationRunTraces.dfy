/** What a falsification job's record says of the runs it asked for, an abort ending it at any of them. */
module FalsificationRunTraces {
  import opened Options
  import opened TestIdentities
  import opened Verdicts
  import opened RunRecords
  import opened FalsificationJobs

  ghost function Upto(runs: JobRuns, n: nat): seq<Entry>
    requires n <= |runs.experiments|
  {
    EntriesUpTo(Somes(runs.experiments), n)
  }

  lemma UptoNext(runs: JobRuns, i: nat)
    requires i < |runs.experiments|
    ensures Upto(runs, 0) == []
    ensures Upto(runs, i + 1) ==
            if Stopped(Upto(runs, i)) then Upto(runs, i) else Upto(runs, i) + EntriesOf(i, Some(runs.experiments[i]))
  {
    hide EntriesOf;
    EntriesNext(Somes(runs.experiments), i);
  }

  lemma {:induction false} UptoGrows(runs: JobRuns, i: nat, n: nat)
    requires i <= n <= |runs.experiments|
    ensures |Upto(runs, i)| <= |Upto(runs, n)| && Upto(runs, n)[..|Upto(runs, i)|] == Upto(runs, i)
    decreases n
  {
    hide *;
    if i < n {
      UptoGrows(runs, i, n - 1);
      UptoNext(runs, n - 1);
    }
  }

  /** Only the last of the runs can have been interrupted. */
  ghost predicate OnlyLast(log: seq<Entry>) {
    forall p :: 0 <= p < |log| - 1 ==> !log[p].step.StepInterrupted?
  }

  lemma Joined(a: seq<Entry>, b: seq<Entry>)
    ensures Stopped(a + b) <==> if b == [] then Stopped(a) else Stopped(b)
    ensures OnlyLast(a) && !Stopped(a) && OnlyLast(b) ==> OnlyLast(a + b)
    ensures OnlyLast([])
  {
  }

  /** The entries of one record: only the last can be interrupted, and is exactly when the record is. */
  lemma EntriesStop(i: nat, record: ExperimentRecord)
    ensures var entries := EntriesOf(i, Some(record));
            && OnlyLast(entries) && (Stopped(entries) <==> WasInterrupted(record))
            && (entries == [] ==> !Stopped(entries))
            && forall e :: e in entries ==> e.which == First(i) || e.which == Confirm(i)
  {
  }

  lemma {:induction false} OnlyLastStops(runs: JobRuns, n: nat)
    requires n <= |runs.experiments|
    ensures OnlyLast(Upto(runs, n))
  {
    hide *;
    if n > 0 {
      OnlyLastStops(runs, n - 1);
      UptoNext(runs, n - 1);
      EntriesStop(n - 1, runs.experiments[n - 1]);
      Joined(Upto(runs, n - 1), EntriesOf(n - 1, Some(runs.experiments[n - 1])));
    } else {
      UptoNone(runs);
      Joined([], []);
    }
  }

  lemma UptoNone(runs: JobRuns)
    ensures Upto(runs, 0) == [] && !Stopped([])
  {
  }

  lemma {:induction false} StopsOnlyInterrupted(runs: JobRuns, n: nat)
    requires n <= |runs.experiments| && forall i :: 0 <= i < n ==> !WasInterrupted(runs.experiments[i])
    ensures !Stopped(Upto(runs, n))
  {
    hide *;
    if n > 0 {
      StopsOnlyInterrupted(runs, n - 1);
      UptoNext(runs, n - 1);
      EntriesStop(n - 1, runs.experiments[n - 1]);
      Joined(Upto(runs, n - 1), EntriesOf(n - 1, Some(runs.experiments[n - 1])));
    } else {
      UptoNone(runs);
    }
  }

  /** After an interrupted experiment that was reached, nothing more is run. */
  lemma {:induction false} StaysStopped(runs: JobRuns, i: nat, n: nat)
    requires i <= n <= |runs.experiments| && Stopped(Upto(runs, i))
    ensures Upto(runs, n) == Upto(runs, i)
    decreases n
  {
    hide *;
    if i < n {
      StaysStopped(runs, i, n - 1);
      UptoNext(runs, n - 1);
    }
  }

  lemma StopsAt(runs: JobRuns, i: nat)
    requires i < |runs.experiments| && WasInterrupted(runs.experiments[i])
    ensures Stopped(Upto(runs, i + 1))
    ensures !Stopped(Upto(runs, i)) ==>
              var last := Upto(runs, i + 1)[|Upto(runs, i + 1)| - 1];
              last.which == First(i) || last.which == Confirm(i)
  {
    UptoNext(runs, i);
    EntriesStop(i, runs.experiments[i]);
    hide EntriesOf, Upto, WasInterrupted;
  }

  /** The record of the experiment at `i`, where the job reached the experiments. */
  lemma FitsOne(job: Job, runs: JobRuns, log: seq<Entry>, i: nat)
    requires job.Valid() && Explains(job, runs, log) && i < |job.experiments|
    ensures |runs.experiments| == |job.experiments|
    ensures runs.baseline.Some? ==>
              HasPlanned(job) && Fits(job, runs.baseline.value, Stopped(Upto(runs, i)), i, runs.experiments[i])
    ensures runs.baseline.None? ==>
              runs.experiments[i].NotRunRecord? && runs.experiments[i].defectId == job.experiments[i].defectId
  {
    hide Entries, EntriesUpTo, Stopped, AnyRan, Fits, LogOf;
  }

  /** A record for each experiment, in their order, so records and experiments always pair. */
  lemma OneRecordEach(job: Job, runs: JobRuns, log: seq<Entry>)
    requires job.Valid() && Explains(job, runs, log)
    ensures Paired(runs, job.experiments)
  {
    forall i | 0 <= i < |job.experiments|
      ensures |runs.experiments| == |job.experiments| && runs.experiments[i].defectId == job.experiments[i].defectId
    {
      FitsOne(job, runs, log, i);
      hide Explains, Upto, Stopped;
    }
  }

  /** After the first interrupted experiment every planned one is recorded interrupted, without a run. */
  lemma AbortLeavesTheRest(job: Job, runs: JobRuns, log: seq<Entry>, i: nat, j: nat)
    requires job.Valid() && Explains(job, runs, log) && i < j < |job.experiments| == |runs.experiments|
    requires WasInterrupted(runs.experiments[i]) && job.Decided(j).None?
    ensures runs.experiments[j] == NotRunAs(job, j, Aborted)
  {
    hide *;
    if runs.baseline.Some? {
      StopsAt(runs, i);
      StaysStopped(runs, i + 1, j);
      FitsOne(job, runs, log, j);
      StoppedFits(job, runs.baseline.value, j, runs.experiments[j]);
    } else {
      AbortedOne(job, runs, log, j);
    }
  }

  lemma StoppedFits(job: Job, baseline: RunOutcome, i: nat, record: ExperimentRecord)
    requires job.Valid() && i < |job.experiments| && job.Decided(i).None? && Fits(job, baseline, true, i, record)
    ensures record == NotRunAs(job, i, Aborted)
  {
  }

  lemma AbortedOne(job: Job, runs: JobRuns, log: seq<Entry>, i: nat)
    requires job.Valid() && Explains(job, runs, log) && i < |job.experiments| == |runs.experiments|
    requires runs.baseline.None? && job.Decided(i).None?
    ensures runs.experiments[i] == NotRunAs(job, i, Aborted)
  {
    hide Entries, EntriesUpTo, Stopped, AnyRan, Fits, LogOf;
    assert HasPlanned(job);
    assert AbortedRecord(job, i, runs.experiments[i]);
  }

  /** The job's log: the baseline, the experiments' runs, and the restored baseline where the job came to it. */
  lemma LogParts(job: Job, runs: JobRuns, log: seq<Entry>)
    requires job.Valid() && Explains(job, runs, log)
    ensures |runs.experiments| == |job.experiments|
    ensures runs.baseline.None? ==>
              runs.restored.None? && (if runs.interrupted then log == [Entry(Baseline, StepInterrupted)] else log == [])
    ensures runs.baseline.Some? ==>
              var stopped, ran := Stopped(Entries(runs)), AnyRan(runs.experiments);
              && log == [Entry(Baseline, StepOf(runs.baseline.value))] + Entries(runs)
                        + LastEntries(stopped, ran, runs.restored)
              && Closes(stopped, ran, runs.interrupted, runs.restored)
  {
    if runs.baseline.Some? {
      var before := [Entry(Baseline, StepOf(runs.baseline.value))] + Entries(runs);
      StepRecorded(runs.baseline.value);
      assert Stopped(before) <==> Stopped(Entries(runs));
      hide Entries, AnyRan, Fits, StepOf;
    }
  }

  lemma OneStep(which: Which, step: RunStep)
    ensures OnlyLast([Entry(which, step)]) && (Stopped([Entry(which, step)]) <==> step.StepInterrupted?)
  {
  }

  lemma LastStops(stopped: bool, ran: bool, interrupted: bool, restored: Option<RunOutcome>)
    requires Closes(stopped, ran, interrupted, restored)
    ensures var last := LastEntries(stopped, ran, restored);
            && OnlyLast(last) && (stopped ==> last == []) && (interrupted <==> stopped || Stopped(last))
            && (forall e :: e in last ==> e.which == Restored)
  {
    if restored.Some? { StepRecorded(restored.value); }
    hide StepOf;
  }

  /** Only the last run asked for can have been interrupted, and it was exactly when the job reads interrupted. */
  lemma OnlyTheLastIsInterrupted(job: Job, runs: JobRuns, log: seq<Entry>)
    requires job.Valid() && Explains(job, runs, log)
    ensures OnlyLast(log)
    ensures runs.interrupted <==> Stopped(log)
  {
    hide *;
    LogParts(job, runs, log);
    Joined([], []);
    NothingStopped();
    if runs.baseline.Some? {
      var first := [Entry(Baseline, StepOf(runs.baseline.value))];
      var stopped, ran := Stopped(Entries(runs)), AnyRan(runs.experiments);
      var last := LastEntries(stopped, ran, runs.restored);
      EntriesAreUpto(runs);
      OnlyLastStops(runs, |runs.experiments|);
      StepRecorded(runs.baseline.value);
      OneStep(Baseline, StepOf(runs.baseline.value));
      LastStops(stopped, ran, runs.interrupted, runs.restored);
      Joined(first, Entries(runs));
      Joined(first + Entries(runs), last);
      if stopped { assert log == first + Entries(runs); }
    } else {
      OneStep(Baseline, StepInterrupted);
    }
  }

  lemma NothingStopped()
    ensures !Stopped([])
  {
  }

  lemma EntriesAreUpto(runs: JobRuns)
    ensures Entries(runs) == Upto(runs, |runs.experiments|)
  {
    hide EntriesUpTo;
  }

  /** The definition whose run the abort ended, as the job's reply is read: the first experiment interrupted. */
  function RunningDefinition(runs: JobRuns): Option<string> {
    if !runs.interrupted || runs.baseline.None? then None else FirstInterrupted(runs.experiments)
  }

  function FirstInterrupted(records: seq<ExperimentRecord>): Option<string> {
    if records == [] then None
    else if WasInterrupted(records[0]) then Some(records[0].defectId)
    else FirstInterrupted(records[1..])
  }

  lemma {:induction false} FirstInterruptedIs(records: seq<ExperimentRecord>) returns (i: nat)
    ensures i <= |records| && forall k :: 0 <= k < i ==> !WasInterrupted(records[k])
    ensures i < |records| ==> WasInterrupted(records[i])
    ensures FirstInterrupted(records) == if i < |records| then Some(records[i].defectId) else None
  {
    hide WasInterrupted;
    if records == [] || WasInterrupted(records[0]) {
      i := 0;
    } else {
      var rest := FirstInterruptedIs(records[1..]);
      i := rest + 1;
      assert forall k :: 1 <= k < i ==> records[k] == records[1..][k - 1];
    }
  }

  /**
   * The definition named as running is the one whose run was interrupted, and none is named when that run was a
   * baseline or when no run was interrupted.
   */
  lemma RunningIsTheInterrupted(job: Job, runs: JobRuns, log: seq<Entry>)
    requires job.Valid() && Explains(job, runs, log)
    ensures RunningDefinition(runs) ==
            if Stopped(log) && (log[|log| - 1].which.First? || log[|log| - 1].which.Confirm?)
               && log[|log| - 1].which.index < |job.experiments|
            then Some(job.experiments[log[|log| - 1].which.index].defectId) else None
    ensures Stopped(log) && (log[|log| - 1].which.First? || log[|log| - 1].which.Confirm?) ==>
              log[|log| - 1].which.index < |job.experiments|
  {
    LogParts(job, runs, log);
    OnlyTheLastIsInterrupted(job, runs, log);
    OneRecordEach(job, runs, log);
    if runs.baseline.Some? && runs.interrupted {
      var n := |runs.experiments|;
      var i := FirstInterruptedIs(runs.experiments);
      StopsOnlyInterrupted(runs, i);
      assert Entries(runs) == Upto(runs, n);
      if i < n {
        StopsAt(runs, i);
        StaysStopped(runs, i + 1, n);
      }
      hide Explains, Entries, AnyRan, StepOf, Upto, WasInterrupted, FirstInterrupted;
    }
    hide Explains;
  }

  /** The first run of the list that started: one recorded, or one that threw once started. */
  ghost function NextStarted(log: seq<Entry>): Option<NextRun> {
    if log == [] then None
    else
      match log[0].step
      case StepRan(record, _) => Some(RecordedRun(record))
      case StepUnrecorded(RunFailed(_)) => Some(NextUnrecorded)
      case _ => NextStarted(log[1..])
  }

  lemma {:induction false} NextStartedAppend(a: seq<Entry>, b: seq<Entry>)
    ensures NextStarted(a + b) == if NextStarted(a).Some? then NextStarted(a) else NextStarted(b)
  {
    if a == [] {
      assert a + b == b;
    } else {
      assert (a + b)[0] == a[0] && (a + b)[1..] == a[1..] + b;
      NextStartedAppend(a[1..], b);
    }
  }

  lemma {:induction false} FirstStartedAppend(a: seq<ExperimentRecord>, b: seq<ExperimentRecord>)
    ensures FirstStarted(a + b) == if FirstStarted(a).Some? then FirstStarted(a) else FirstStarted(b)
  {
    hide StartedRun;
    if a == [] {
      assert a + b == b;
    } else {
      assert (a + b)[0] == a[0] && (a + b)[1..] == a[1..] + b;
      FirstStartedAppend(a[1..], b);
    }
  }

  lemma EntriesStarted(i: nat, record: ExperimentRecord)
    ensures NextStarted(EntriesOf(i, Some(record))) == StartedRun(record)
  {
  }

  lemma StoppedStartsNone(job: Job, baseline: RunOutcome, i: nat, record: ExperimentRecord)
    requires job.Valid() && i < |job.experiments| && Fits(job, baseline, true, i, record)
    ensures StartedRun(record).None?
  {
  }

  lemma {:induction false} RestStarted(job: Job, runs: JobRuns, log: seq<Entry>, i: nat, n: nat)
    requires job.Valid() && Explains(job, runs, log) && runs.baseline.Some?
    requires i <= n <= |job.experiments| == |runs.experiments|
    ensures |Upto(runs, i)| <= |Upto(runs, n)|
    ensures NextStarted(Upto(runs, n)[|Upto(runs, i)|..]) == FirstStarted(runs.experiments[i..n])
    decreases n
  {
    hide *;
    UptoGrows(runs, i, n);
    var records := runs.experiments;
    if i < n {
      var last := n - 1;
      RestStarted(job, runs, log, i, last);
      UptoGrows(runs, i, last);
      UptoNext(runs, last);
      FitsOne(job, runs, log, last);
      var before, rest := Upto(runs, last), Upto(runs, last)[|Upto(runs, i)|..];
      assert records[i..n] == records[i..last] + [records[last]];
      FirstStartedAppend(records[i..last], [records[last]]);
      FirstStartedOne(records[last]);
      if Stopped(before) {
        StoppedStartsNone(job, runs.baseline.value, last, records[last]);
      } else {
        var entries := EntriesOf(last, Some(records[last]));
        assert (before + entries)[|Upto(runs, i)|..] == rest + entries;
        NextStartedAppend(rest, entries);
        EntriesStarted(last, records[last]);
      }
    } else {
      assert records[i..n] == [] && Upto(runs, n)[|Upto(runs, i)|..] == [];
      NoneStarted();
    }
  }

  lemma FirstStartedOne(record: ExperimentRecord)
    ensures FirstStarted([record]) == StartedRun(record)
  {
    hide StartedRun;
  }

  lemma NoneStarted()
    ensures FirstStarted([]) == None && NextStarted([]) == None
  {
  }

  lemma LastStarted(stopped: bool, ran: bool, interrupted: bool, restored: Option<RunOutcome>)
    requires Closes(stopped, ran, interrupted, restored)
    ensures NextStarted(LastEntries(stopped, ran, restored)) == RestoredStarted(restored)
  {
  }

  /** Where in the log the first run of the experiment at `i` is, when it ran. */
  ghost function PlaceOf(runs: JobRuns, i: nat): nat
    requires i <= |runs.experiments|
  {
    1 + |Upto(runs, i)|
  }

  lemma FitsRan(job: Job, baseline: RunOutcome, stopped: bool, i: nat, record: ExperimentRecord)
    requires job.Valid() && i < |job.experiments| && record.RanRecord? && Fits(job, baseline, stopped, i, record)
    ensures !stopped && job.Decided(i).None? && baseline.RanOutcome?
    ensures record.confirming.Some? <==> job.WouldDetect(i, record.run, record.mutation)
  {
    hide Job.WouldDetect;
  }

  lemma RanEntries(i: nat, record: ExperimentRecord)
    requires record.RanRecord?
    ensures var first := [Entry(First(i), StepRan(record.run, record.mutation))];
            EntriesOf(i, Some(record)) ==
            if record.confirming.None? then first
            else first + [Entry(Confirm(i), ConfirmingStep(record.confirming.value))]
  {
  }

  /** The log from the runs of the experiment at `i` on. */
  lemma LogFrom(job: Job, runs: JobRuns, log: seq<Entry>, i: nat) returns (rest: seq<Entry>)
    requires job.Valid() && Explains(job, runs, log) && i < |runs.experiments| == |job.experiments|
    requires runs.experiments[i].RanRecord?
    ensures PlaceOf(runs, i) <= |log|
    ensures log[PlaceOf(runs, i)..] == EntriesOf(i, Some(runs.experiments[i])) + rest
    ensures NextStarted(rest) == NextRunAfter(runs, i)
  {
    hide *;
    LogParts(job, runs, log);
    FitsOne(job, runs, log, i);
    FitsRan(job, runs.baseline.value, Stopped(Upto(runs, i)), i, runs.experiments[i]);
    UptoNext(runs, i);
    UptoGrows(runs, i + 1, |runs.experiments|);
    EntriesAreUpto(runs);
    RestStarted(job, runs, log, i + 1, |runs.experiments|);
    var stopped, ran := Stopped(Entries(runs)), AnyRan(runs.experiments);
    LastStarted(stopped, ran, runs.interrupted, runs.restored);
    var entries := EntriesOf(i, Some(runs.experiments[i]));
    var start := [Entry(Baseline, StepOf(runs.baseline.value))] + Upto(runs, i);
    var after := Entries(runs)[|Upto(runs, i + 1)|..];
    rest := after + LastEntries(stopped, ran, runs.restored);
    assert Entries(runs) == Upto(runs, i + 1) + after;
    assert log == start + (entries + rest);
    PlaceIs(runs, i);
    assert log[|start|..] == entries + rest;
    NextStartedAppend(after, LastEntries(stopped, ran, runs.restored));
    NextIs(runs, i);
  }

  lemma PlaceIs(runs: JobRuns, i: nat)
    requires i <= |runs.experiments|
    ensures PlaceOf(runs, i) == 1 + |Upto(runs, i)|
  {
  }

  lemma NextIs(runs: JobRuns, i: nat)
    requires i < |runs.experiments|
    ensures runs.experiments[i + 1..] == runs.experiments[i + 1..|runs.experiments|]
    ensures NextRunAfter(runs, i) ==
            if FirstStarted(runs.experiments[i + 1..]).Some? then FirstStarted(runs.experiments[i + 1..])
            else RestoredStarted(runs.restored)
  {
  }

  /**
   * An experiment that ran: its record holds its own run, a confirming run exactly when that run alone would be a
   * detection, made at once after it, and the run read as next is the first the job started after both.
   */
  lemma RanInLog(job: Job, runs: JobRuns, log: seq<Entry>, i: nat)
    requires job.Valid() && Explains(job, runs, log) && i < |runs.experiments| == |job.experiments|
    requires runs.experiments[i].RanRecord?
    ensures var p, record := PlaceOf(runs, i), runs.experiments[i];
            && p < |log| && log[p] == Entry(First(i), StepRan(record.run, record.mutation))
            && (record.confirming.Some? <==> job.WouldDetect(i, record.run, record.mutation))
            && (if record.confirming.None? then NextRunAfter(runs, i) == NextStarted(log[p + 1..])
                else
                  && p + 1 < |log| && log[p + 1] == Entry(Confirm(i), ConfirmingStep(record.confirming.value))
                  && NextRunAfter(runs, i) == NextStarted(log[p + 2..]))
  {
    hide *;
    var p, record := PlaceOf(runs, i), runs.experiments[i];
    var rest := LogFrom(job, runs, log, i);
    var entries := EntriesOf(i, Some(record));
    RanEntries(i, record);
    assert forall k :: 0 <= k < |entries| ==> log[p + k] == log[p..][k];
    assert log[p + |entries|..] == rest;
    FitsOne(job, runs, log, i);
    FitsRan(job, runs.baseline.value, Stopped(Upto(runs, i)), i, record);
  }

  lemma {:induction false} FirstOnceUpto(runs: JobRuns, n: nat, q: nat, i: nat)
    requires n <= |runs.experiments| && q < |Upto(runs, n)| && Upto(runs, n)[q].which == First(i)
    ensures i < n && q == |Upto(runs, i)|
    ensures EntriesOf(i, Some(runs.experiments[i])) != []
    ensures Upto(runs, n)[q] == EntriesOf(i, Some(runs.experiments[i]))[0]
  {
    hide *;
    if n == 0 {
      UptoNone(runs);
    } else {
      UptoNext(runs, n - 1);
      var before := Upto(runs, n - 1);
      if q < |before| {
        FirstOnceUpto(runs, n - 1, q, i);
      } else {
        FirstInEntries(n - 1, runs.experiments[n - 1], q - |before|, i);
      }
    }
  }

  lemma FirstInEntries(k: nat, record: ExperimentRecord, q: nat, i: nat)
    requires q < |EntriesOf(k, Some(record))| && EntriesOf(k, Some(record))[q].which == First(i)
    ensures i == k && q == 0
  {
  }

  /**
   * A run the log has as the first run of an experiment is that experiment's only one, and is in its record if it
   * ran.
   */
  lemma FirstOnce(job: Job, runs: JobRuns, log: seq<Entry>, q: nat, i: nat)
    requires job.Valid() && Explains(job, runs, log) && q < |log| && log[q].which == First(i)
    ensures i < |runs.experiments| == |job.experiments| && q == PlaceOf(runs, i)
    ensures runs.experiments[i].RanRecord? <==> log[q].step.StepRan?
  {
    hide *;
    LogParts(job, runs, log);
    EntriesAreUpto(runs);
    var n := |runs.experiments|;
    var stopped, ran := Stopped(Entries(runs)), AnyRan(runs.experiments);
    LastStops(stopped, ran, runs.interrupted, runs.restored);
    assert runs.baseline.Some?;
    var last := LastEntries(stopped, ran, runs.restored);
    forall k | |Entries(runs)| < k < |log|
      ensures log[k].which == Restored
    {
      assert log[k] == last[k - 1 - |Entries(runs)|];
      assert log[k] in last;
    }
    assert log[q] == Entries(runs)[q - 1];
    FirstOnceUpto(runs, n, q - 1, i);
    PlaceIs(runs, i);
    RanExactly(i, runs.experiments[i]);
  }

  lemma RanExactly(i: nat, record: ExperimentRecord)
    ensures var entries := EntriesOf(i, Some(record));
            entries != [] ==> (record.RanRecord? <==> entries[0].step.StepRan?)
  {
  }

  /** In a job that was aborted, no experiment that ran gets a verdict. */
  lemma NoVerdictWhenInterrupted(job: Job, runs: JobRuns, log: seq<Entry>, end: JobEnd, i: nat)
    requires job.Valid() && Explains(job, runs, log) && i < |runs.experiments| == |job.experiments|
    requires runs.interrupted
    ensures runs.restored.None?
    ensures runs.experiments[i].RanRecord? ==>
              Judge(FactsAt(runs, end, i, job.experiments[i].test, job.assertionErrors)).NoVerdict?
  {
    LogParts(job, runs, log);
    hide Explains, Entries, AnyRan, ReadRun, RunFactsOf;
  }

  /**
   * In a job no abort ended, each experiment that ran is followed by a started run if the restored baseline left a
   * record.
   */
  lemma NextRunExists(job: Job, runs: JobRuns, log: seq<Entry>, i: nat)
    requires job.Valid() && Explains(job, runs, log) && i < |runs.experiments| == |job.experiments|
    requires !runs.interrupted && runs.experiments[i].RanRecord?
    ensures runs.restored.Some?
    ensures runs.restored.value.RanOutcome? ==> NextRunAfter(runs, i).Some?
    ensures NextRunAfter(runs, i).None? ==> runs.restored == Some(UnrecordedOutcome(StaleModules))
  {
    hide *;
    LogParts(job, runs, log);
    FitsOne(job, runs, log, i);
    RanAny(runs.experiments, i);
    ClosesRan(Stopped(Entries(runs)), runs.restored);
    NextIs(runs, i);
    RestoredStarts(runs.restored);
  }

  lemma RanAny(records: seq<ExperimentRecord>, i: nat)
    requires i < |records| && records[i].RanRecord?
    ensures AnyRan(records)
  {
  }

  lemma ClosesRan(stopped: bool, restored: Option<RunOutcome>)
    ensures Closes(stopped, true, false, restored) ==> restored.Some?
  {
  }

  lemma RestoredStarts(restored: Option<RunOutcome>)
    ensures restored.Some? ==>
              (RestoredStarted(restored).None? <==> restored == Some(UnrecordedOutcome(StaleModules)))
  {
  }

  /** A step that ran and, taken alone, rejects the mutation of the experiment at `i`. */
  ghost predicate Rejects(job: Job, i: nat, step: RunStep)
    requires i < |job.experiments|
  {
    step.StepRan?
    && RejectsMutation(RunFactsOf(step.record, step.mutation, job.experiments[i].test, job.assertionErrors))
  }

  /**
   * At `p` the experiment ran, and at once again, each run rejecting its mutation, and the run started next was
   * clean.
   */
  ghost predicate RejectedAt(job: Job, log: seq<Entry>, p: nat, i: nat)
    requires i < |job.experiments|
  {
    && p + 1 < |log| && log[p].which == First(i) && log[p + 1].which == Confirm(i)
    && Rejects(job, i, log[p].step) && Rejects(job, i, log[p + 1].step)
    && NextStarted(log[p + 2..]) == Some(NextRecorded(0))
  }

  /** The run is this baseline, recorded, and clean for the test. */
  ghost predicate CleanRun(entry: Entry, which: Which, test: TestIdentity) {
    entry.which == which && entry.step.StepRan? && CleanFor(entry.step.record, test)
  }

  /** What the facts of an experiment must say for it to be detected, read from the job's record. */
  ghost predicate RecordDetects(job: Job, runs: JobRuns, i: nat)
    requires i < |runs.experiments| == |job.experiments|
  {
    var record, test := runs.experiments[i], job.experiments[i].test;
    && record.RanRecord?
    && runs.baseline.Some? && runs.baseline.value.RanOutcome? && CleanFor(runs.baseline.value.record, test)
    && runs.restored.Some? && runs.restored.value.RanOutcome? && CleanFor(runs.restored.value.record, test)
    && Rejects(job, i, StepRan(record.run, record.mutation))
    && record.confirming.Some? && record.confirming.value.ConfirmingRan?
    && Rejects(job, i, ConfirmingStep(record.confirming.value))
    && NextRunAfter(runs, i) == Some(NextRecorded(0))
  }

  lemma DetectsByRecord(job: Job, runs: JobRuns, end: JobEnd, i: nat)
    requires i < |runs.experiments| == |job.experiments|
    ensures Judge(FactsAt(runs, end, i, job.experiments[i].test, job.assertionErrors)) == Detected <==>
            RecordDetects(job, runs, i) && end == JobEnd(0, true)
  {
    var test, errors := job.experiments[i].test, job.assertionErrors;
    DetectedExactly(FactsAt(runs, end, i, test, errors));
    if runs.baseline.Some? && runs.baseline.value.RanOutcome? {
      CleanForExactly(runs.baseline.value.record, test, errors);
    }
    if runs.restored.Some? && runs.restored.value.RanOutcome? {
      CleanForExactly(runs.restored.value.record, test, errors);
    }
    hide CleanFor, CleanBaseline, RunFactsOf, BaselineFactsOf, RejectsMutation, Judge, NextRunAfter;
  }

  lemma RejectedInLog(job: Job, runs: JobRuns, log: seq<Entry>, i: nat)
    requires job.Valid() && Explains(job, runs, log) && i < |runs.experiments| == |job.experiments|
    requires runs.experiments[i].RanRecord?
    ensures var record := runs.experiments[i];
            RejectedAt(job, log, PlaceOf(runs, i), i) <==>
            && Rejects(job, i, StepRan(record.run, record.mutation))
            && record.confirming.Some? && record.confirming.value.ConfirmingRan?
            && Rejects(job, i, ConfirmingStep(record.confirming.value))
            && NextRunAfter(runs, i) == Some(NextRecorded(0))
  {
    RanInLog(job, runs, log, i);
    RejectsDetects(job, i, StepRan(runs.experiments[i].run, runs.experiments[i].mutation));
    hide Explains, PlaceOf, NextStarted, NextRunAfter, RejectsMutation, RunFactsOf, Job.WouldDetect;
  }

  lemma RejectsDetects(job: Job, i: nat, step: RunStep)
    requires i < |job.experiments| && step.StepRan?
    ensures Rejects(job, i, step) <==> job.WouldDetect(i, step.record, step.mutation)
  {
    ReadsWouldDetect(RunFactsOf(step.record, step.mutation, job.experiments[i].test, job.assertionErrors));
    hide RunFactsOf, RejectsMutation, ReadRun;
  }

  /** The baselines' places: the first run is the first baseline, the last the restored one when the job came to it. */
  lemma BaselinesInLog(job: Job, runs: JobRuns, log: seq<Entry>, test: TestIdentity)
    requires job.Valid() && Explains(job, runs, log)
    ensures (log != [] && CleanRun(log[0], Baseline, test)) <==>
            runs.baseline.Some? && runs.baseline.value.RanOutcome? && CleanFor(runs.baseline.value.record, test)
    ensures (log != [] && CleanRun(log[|log| - 1], Restored, test)) <==>
            runs.restored.Some? && runs.restored.value.RanOutcome? && CleanFor(runs.restored.value.record, test)
  {
    LogParts(job, runs, log);
    if runs.baseline.Some? {
      var stopped, ran := Stopped(Entries(runs)), AnyRan(runs.experiments);
      var last := LastEntries(stopped, ran, runs.restored);
      assert log[0] == Entry(Baseline, StepOf(runs.baseline.value));
      if last == [] {
        LastIsNoBaseline(runs);
        assert log[|log| - 1] == if Entries(runs) == [] then log[0] else Entries(runs)[|Entries(runs)| - 1];
      } else {
        assert log[|log| - 1] == last[0];
      }
      hide Explains, Entries, AnyRan, CleanFor, Stopped;
    }
    hide Explains, Entries, AnyRan, CleanFor, Stopped;
  }

  lemma {:induction false} NoBaselineUpto(runs: JobRuns, n: nat)
    requires n <= |runs.experiments|
    ensures forall e :: e in Upto(runs, n) ==> e.which.First? || e.which.Confirm?
  {
    hide *;
    if n == 0 {
      UptoNone(runs);
    } else {
      NoBaselineUpto(runs, n - 1);
      UptoNext(runs, n - 1);
      EntriesStop(n - 1, runs.experiments[n - 1]);
    }
  }

  lemma LastIsNoBaseline(runs: JobRuns)
    ensures Entries(runs) != [] ==> !Entries(runs)[|Entries(runs)| - 1].which.Restored?
  {
    EntriesAreUpto(runs);
    NoBaselineUpto(runs, |runs.experiments|);
    hide Upto, Entries;
  }

  /**
   * A job judges an experiment detected exactly when, of the runs it asked for: the baseline ran clean for the test; the
   * experiment ran and at once ran again, each run rejecting its mutation; the first run started after both was
   * recorded with no unhandled error; the last was the restored baseline, clean for the test; and the job's process
   * closed the instance with no unhandled error.
   */
  lemma DetectedByRuns(job: Job, runs: JobRuns, log: seq<Entry>, end: JobEnd, i: nat)
    requires job.Valid() && Explains(job, runs, log) && i < |runs.experiments| == |job.experiments|
    ensures var test := job.experiments[i].test;
            Judge(FactsAt(runs, end, i, test, job.assertionErrors)) == Detected <==>
            && log != [] && CleanRun(log[0], Baseline, test) && CleanRun(log[|log| - 1], Restored, test)
            && (exists p :: RejectedAt(job, log, p, i))
            && end == JobEnd(0, true)
  {
    DetectsByRecord(job, runs, end, i);
    BaselinesInLog(job, runs, log, job.experiments[i].test);
    if runs.experiments[i].RanRecord? {
      RejectedInLog(job, runs, log, i);
    }
    hide Explains, CleanFor, CleanRun, PlaceOf, NextStarted, NextRunAfter, Rejects, FactsAt, Judge;
    if exists p :: RejectedAt(job, log, p, i) {
      var p :| RejectedAt(job, log, p, i);
      RejectedRan(job, log, p, i);
      FirstOnce(job, runs, log, p, i);
    }
  }

  lemma RejectedRan(job: Job, log: seq<Entry>, p: nat, i: nat)
    requires i < |job.experiments| && RejectedAt(job, log, p, i)
    ensures p < |log| && log[p].which == First(i) && log[p].step.StepRan?
  {
  }
}
