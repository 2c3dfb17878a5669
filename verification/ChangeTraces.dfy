/** What the change record keeps over every trace of jobs, reports and readings. */
module ChangeTraces {
  import opened Options
  import opened SubjectChanges
  import opened ChangeRecords

  /** The latest reading: the digests last observed, or at the end of the job that ended last. */
  ghost function LatestReading(trace: seq<Event>): Option<Digests> {
    if trace == [] then None
    else
      match trace[|trace| - 1]
      case Observed(digests) => digests
      case JobEnded(_, window) => window.endDigests
      case _ => LatestReading(trace[..|trace| - 1])
  }

  /**
   * The digests the subject's changes count from: those its last ended job began at, or ended at when its start could
   * not be read; after a job that threw, the latest reading then.
   */
  ghost function CountedFrom(trace: seq<Event>, subject: Job): Option<Digests> {
    if trace == [] then None
    else
      var before := trace[..|trace| - 1];
      match trace[|trace| - 1]
      case JobEnded(job, window) =>
        if job != subject then CountedFrom(before, subject)
        else if window.startDigests.Some? then window.startDigests
        else window.endDigests
      case JobThrew(job) => if job == subject then LatestReading(before) else CountedFrom(before, subject)
      case _ => CountedFrom(before, subject)
  }

  /** The tracker's promise: with no cause, a window lists every path that differs between its two readings. */
  ghost predicate Vouches(window: Window) {
    window.causes == {} && window.startDigests.Some? && window.endDigests.Some? ==>
      ChangedPaths(window.startDigests.value, window.endDigests.value) <= window.paths
  }

  ghost predicate WindowsVouch(trace: seq<Event>) {
    forall i :: 0 <= i < |trace| && trace[i].JobEnded? ==> Vouches(trace[i].window)
  }

  /** Every path that differs between the two readings is known to the subject, which is not at an edit everywhere. */
  ghost predicate Covers(s: Sets, from: Option<Digests>, to: Option<Digests>) {
    s.everywhere || to.None? || (from.Some? && ChangedPaths(from.value, to.value) <= s.Known())
  }

  lemma AddedKnows(s: Sets, caused: set<Path>, edits: set<Path>, job: Job)
    ensures AddedEdits(s, edits).everywhere || AddedEdits(s, edits).Known() == s.Known() + edits
    ensures AddedJob(s, caused, job).everywhere || AddedJob(s, caused, job).Known() == s.Known() + caused
    ensures s.everywhere ==> AddedEdits(s, edits).everywhere && AddedJob(s, caused, job).everywhere
  {
    WithJobKeys(s.byJobs, caused, job);
    hide WithJob;
  }

  lemma IntervalAt(subjects: map<Job, Sets>, last: Option<Digests>, to: Option<Digests>, subject: Job)
    requires subject in subjects
    ensures var s := Interval(subjects, last, to)[subject];
            || s.everywhere
            || (last.Some? && to.Some? && s == AddedEdits(subjects[subject], ChangedPaths(last.value, to.value)))
  {
    hide AddedEdits, ChangedPaths;
  }

  lemma IntervalCovers(
      subjects: map<Job, Sets>, last: Option<Digests>, to: Option<Digests>, subject: Job, from: Option<Digests>)
    requires subject in subjects && Covers(subjects[subject], from, last)
    ensures Covers(Interval(subjects, last, to)[subject], from, to)
  {
    IntervalAt(subjects, last, to, subject);
    hide Interval;
    if last.Some? && to.Some? {
      AddedKnows(subjects[subject], {}, ChangedPaths(last.value, to.value), Discovery);
      hide AddedEdits;
      if from.Some? { Telescopes(from.value, last.value, to.value); }
      hide ChangedPaths;
    }
  }

  lemma Telescopes(a: Digests, b: Digests, c: Digests)
    ensures ChangedPaths(a, c) <= ChangedPaths(a, b) + ChangedPaths(b, c)
    ensures ChangedPaths(a, a) == {}
  {
  }

  /** A subject's changes once the window of a job that ended is added to them. */
  ghost function Charged(s: Sets, window: Window, reported: set<Path>, job: Job): Sets {
    if window.causes != {} || |window.paths| > MAX_COUNTED_CHANGES then EVERYWHERE
    else AddedEdits(AddedJob(s, window.paths - reported, job), window.paths * reported)
  }

  lemma ChargedKnows(s: Sets, window: Window, reported: set<Path>, job: Job)
    ensures var charged := Charged(s, window, reported, job);
            charged.everywhere || (window.causes == {} && !s.everywhere && charged.Known() == s.Known() + window.paths)
  {
    var caused, edits := window.paths - reported, window.paths * reported;
    AddedKnows(s, caused, {}, job);
    AddedKnows(AddedJob(s, caused, job), {}, edits, job);
    hide AddedJob, AddedEdits;
    assert caused + edits == window.paths;
  }

  lemma ChargedCovers(s: Sets, from: Option<Digests>, window: Window, reported: set<Path>, job: Job)
    requires Vouches(window) && Covers(s, from, window.startDigests)
    requires window.startDigests.None? ==> s.everywhere || from == window.endDigests
    ensures Covers(Charged(s, window, reported, job), from, window.endDigests)
  {
    ChargedKnows(s, window, reported, job);
    hide Charged;
    if from.Some? && window.endDigests.Some? {
      Telescopes(from.value, window.endDigests.value, window.endDigests.value);
      if window.startDigests.Some? {
        Telescopes(from.value, window.startDigests.value, window.endDigests.value);
      }
      hide ChangedPaths;
    }
  }

  ghost function HeldReports(r: Record, job: Job): set<Path> {
    if job in r.running then r.running[job] else {}
  }

  lemma EndedIs(r: Record, window: Window, job: Job, subject: Job)
    requires job != subject ==> subject in r.subjects
    ensures var s := if job == subject then NOTHING else Interval(r.subjects, r.last, window.startDigests)[subject];
            && subject in Ended(r, window, job).subjects
            && Ended(r, window, job).subjects[subject] == Charged(s, window, HeldReports(r, job), job)
  {
    hide AddedJob, AddedEdits;
  }

  lemma EndedCovers(r: Record, window: Window, job: Job, subject: Job, from: Option<Digests>)
    requires Vouches(window)
    requires job != subject ==> subject in r.subjects && Covers(r.subjects[subject], from, r.last)
    ensures subject in Ended(r, window, job).subjects
    ensures Covers(
              Ended(r, window, job).subjects[subject],
              if job != subject then from
              else if window.startDigests.Some? then window.startDigests else window.endDigests,
              window.endDigests)
  {
    var start, end, reported := window.startDigests, window.endDigests, HeldReports(r, job);
    EndedIs(r, window, job, subject);
    hide Ended, Charged, HeldReports, Vouches;
    if job != subject {
      IntervalCovers(r.subjects, r.last, start, subject, from);
      hide *;
      ChargedCovers(Interval(r.subjects, r.last, start)[subject], from, window, reported, job);
    } else {
      NothingCovers(start);
      hide *;
      ChargedCovers(NOTHING, if start.Some? then start else end, window, reported, job);
    }
  }

  lemma NothingCovers(digests: Option<Digests>)
    ensures Covers(NOTHING, digests, digests)
    ensures forall to :: Covers(NOTHING, to, None)
  {
    if digests.Some? { Telescopes(digests.value, digests.value, digests.value); }
    hide ChangedPaths;
  }

  /**
   * No change is lost: whatever the order of begins, ends, throws, readings and reports, each path whose digest differs
   * between the reading a subject counts from and the latest one is among its jobs' changes or its edits, unless an
   * edit already counts as reaching every input. A subject that could not be counted from any reading is everywhere.
   */
  lemma {:induction false} NoChangeLost(trace: seq<Event>, subject: Job)
    requires WindowsVouch(trace) && subject in After(trace).subjects
    ensures After(trace).last == LatestReading(trace)
    ensures Covers(After(trace).subjects[subject], CountedFrom(trace, subject), LatestReading(trace))
  {
    var before, e := trace[..|trace| - 1], trace[|trace| - 1];
    var r := After(before);
    LastIsLatest(before);
    LastIsLatest(trace);
    if subject in r.subjects {
      NoChangeLost(before, subject);
    }
    var from, last := CountedFrom(before, subject), LatestReading(before);
    hide After, CountedFrom, LatestReading;
    match e
    case JobEnded(job, window) =>
      assert trace[|trace| - 1].window == window;
      EndedCovers(r, window, job, subject, from);
    case Observed(digests) =>
      IntervalCovers(r.subjects, last, digests, subject, from);
    case Reported(_, keys) =>
      var s := r.subjects[subject];
      assert MovedToEdits(s, keys).Known() == s.Known();
    case _ =>
  }

  lemma {:induction false} LastIsLatest(trace: seq<Event>)
    ensures After(trace).last == LatestReading(trace)
  {
    if trace != [] {
      LastIsLatest(trace[..|trace| - 1]);
    }
  }

  predicate About(e: Event, job: Job) {
    (e.JobBegan? || e.JobNotBegun? || e.JobThrew? || e.JobEnded?) && e.job == job
  }

  /** Each report is its own. */
  ghost predicate ReportsDistinct(trace: seq<Event>) {
    forall r, q :: 0 <= r < q < |trace| && trace[r].Reported? && trace[q].Reported? ==>
      trace[r].report != trace[q].report
  }

  /** The job began at `b` and neither ended nor began again since. */
  ghost predicate RunningSince(trace: seq<Event>, job: Job, b: int) {
    0 <= b < |trace| && trace[b] == JobBegan(job) && forall n :: b < n < |trace| ==> !About(trace[n], job)
  }

  ghost predicate ReportsKey(trace: seq<Event>, r: int, key: Path) {
    0 <= r < |trace| && trace[r].Reported? && key in trace[r].keys
  }

  /** The report made at `r` had not been read when `end` came. */
  ghost predicate OpenUntil(trace: seq<Event>, r: int, end: int) {
    0 <= r < end <= |trace| && trace[r].Reported?
    && forall n :: r < n < end ==> trace[n] != ReadResolved(trace[r].report)
  }

  /** The running job holds a report of the key: made while it ran, or still open when it began. */
  ghost predicate HoldsReport(trace: seq<Event>, job: Job, key: Path) {
    exists b, r :: RunningSince(trace, job, b) && ReportsKey(trace, r, key) && (r > b || OpenUntil(trace, r, b))
  }

  lemma {:induction false} UnreadIsOpen(trace: seq<Event>, report: nat)
    requires ReportsDistinct(trace)
    ensures report in After(trace).unread <==>
            exists r :: OpenUntil(trace, r, |trace|) && trace[r].report == report
    ensures forall r :: OpenUntil(trace, r, |trace|) && trace[r].report == report ==>
              report in After(trace).unread && After(trace).unread[report] == trace[r].keys
  {
    if trace != [] {
      var before, e := trace[..|trace| - 1], trace[|trace| - 1];
      UnreadIsOpen(before, report);
      var unread := After(before).unread;
      assert After(trace).unread == match e
        case Reported(r, keys) => unread[r := keys]
        case ReadResolved(r) => unread - {r}
        case _ => unread;
      hide After;
      forall r | 0 <= r < |before| && trace[r].Reported?
        ensures OpenUntil(trace, r, |trace|) <==>
                OpenUntil(before, r, |before|) && e != ReadResolved(trace[r].report)
      {
        assert forall n :: 0 <= n < |before| ==> trace[n] == before[n];
      }
      if e.Reported? {
        assert OpenUntil(trace, |before|, |trace|);
      }
    }
  }

  ghost predicate HeldIn(r: Record, job: Job, key: Path) {
    job in r.running && key in r.running[job]
  }

  /** What the record keeps for a running job is exactly the keys of the reports the job holds. */
  lemma {:induction false} RunningHoldsReports(trace: seq<Event>, job: Job, key: Path)
    requires ReportsDistinct(trace)
    ensures job in After(trace).running <==> exists b :: RunningSince(trace, job, b)
    ensures HeldIn(After(trace), job, key) <==> HoldsReport(trace, job, key)
  {
    if trace != [] {
      var before, e := trace[..|trace| - 1], trace[|trace| - 1];
      RunningHoldsReports(before, job, key);
      assert trace == before + [e];
      Extends(before, e, job);
      if e == JobBegan(job) {
        BeganHolds(before, job, key);
      } else if !About(e, job) {
        KeepsHolding(before, e, job, key);
        hide HoldsReport;
      } else {
        hide HoldsReport;
        assert forall b :: !RunningSince(trace, job, b);
        NotRunningHoldsNone(trace, job, key);
      }
    }
  }

  lemma NotRunningHoldsNone(trace: seq<Event>, job: Job, key: Path)
    requires forall b :: !RunningSince(trace, job, b)
    ensures !HoldsReport(trace, job, key)
  {
  }

  lemma Extends(before: seq<Event>, e: Event, job: Job)
    ensures var trace := before + [e];
            && (forall b :: 0 <= b < |before| ==>
                  (RunningSince(trace, job, b) <==> RunningSince(before, job, b) && !About(e, job)))
            && (RunningSince(trace, job, |before|) <==> e == JobBegan(job))
            && (forall r, end :: end <= |before| ==> (OpenUntil(trace, r, end) <==> OpenUntil(before, r, end)))
  {
    var trace := before + [e];
    assert forall n :: 0 <= n < |before| ==> trace[n] == before[n];
    forall b | 0 <= b < |before|
      ensures RunningSince(trace, job, b) <==> RunningSince(before, job, b) && !About(e, job)
    {
      assert trace[|before|] == e;
    }
  }

  lemma BeganHolds(before: seq<Event>, job: Job, key: Path)
    requires ReportsDistinct(before)
    ensures key in UnreadKeys(After(before).unread) <==> HoldsReport(before + [JobBegan(job)], job, key)
  {
    var trace := before + [JobBegan(job)];
    Extends(before, JobBegan(job), job);
    var unread := After(before).unread;
    if key in UnreadKeys(unread) {
      var report :| report in unread && key in unread[report];
      UnreadIsOpen(before, report);
      var r :| OpenUntil(before, r, |before|) && before[r].report == report;
      assert OpenUntil(trace, r, |before|) && RunningSince(trace, job, |before|) && ReportsKey(trace, r, key);
    }
    if HoldsReport(trace, job, key) {
      var b, r :| RunningSince(trace, job, b) && ReportsKey(trace, r, key) && (r > b || OpenUntil(trace, r, b));
      assert b == |before|;
      assert trace[r] == before[r];
      UnreadIsOpen(before, trace[r].report);
    }
  }

  lemma KeepsHolding(before: seq<Event>, e: Event, job: Job, key: Path)
    requires !About(e, job)
    ensures HoldsReport(before + [e], job, key) <==>
            || HoldsReport(before, job, key)
            || (e.Reported? && key in e.keys && exists b :: RunningSince(before, job, b))
  {
    var trace := before + [e];
    Extends(before, e, job);
    ReportsExtend(before, e, key);
    hide RunningSince, ReportsKey, OpenUntil, About;
    if HoldsReport(before, job, key) {
      var b, r :| RunningSince(before, job, b) && ReportsKey(before, r, key) && (r > b || OpenUntil(before, r, b));
      ReportsWithin(before, job, b, r, key);
      HoldsWith(trace, job, key, b, r);
    }
    if e.Reported? && key in e.keys && exists b :: RunningSince(before, job, b) {
      var b :| RunningSince(before, job, b);
      BeganWithin(before, job, b);
      HoldsWith(trace, job, key, b, |before|);
    }
    if HoldsReport(trace, job, key) {
      var b, r :| RunningSince(trace, job, b) && ReportsKey(trace, r, key) && (r > b || OpenUntil(trace, r, b));
      HeldBefore(before, e, job, key, b, r);
    }
  }

  lemma HeldBefore(before: seq<Event>, e: Event, job: Job, key: Path, b: int, r: int)
    requires !About(e, job) && RunningSince(before + [e], job, b) && ReportsKey(before + [e], r, key)
    requires r > b || OpenUntil(before + [e], r, b)
    ensures HoldsReport(before, job, key) || (e.Reported? && key in e.keys && exists b :: RunningSince(before, job, b))
  {
    Extends(before, e, job);
    ReportsExtend(before, e, key);
    BeganWithin(before + [e], job, b);
    ReportsWithin(before + [e], job, b, r, key);
    assert b < |before|;
    assert RunningSince(before, job, b);
    hide RunningSince, ReportsKey, OpenUntil, About;
    if r < |before| { HoldsWith(before, job, key, b, r); }
  }

  lemma HoldsWith(trace: seq<Event>, job: Job, key: Path, b: int, r: int)
    requires RunningSince(trace, job, b) && ReportsKey(trace, r, key) && (r > b || OpenUntil(trace, r, b))
    ensures HoldsReport(trace, job, key)
  {
    hide RunningSince, ReportsKey, OpenUntil;
  }

  lemma BeganWithin(trace: seq<Event>, job: Job, b: int)
    requires RunningSince(trace, job, b)
    ensures 0 <= b < |trace|
  {
  }

  lemma ReportsWithin(trace: seq<Event>, job: Job, b: int, r: int, key: Path)
    requires RunningSince(trace, job, b) && ReportsKey(trace, r, key)
    ensures 0 <= b < |trace| && 0 <= r < |trace|
  {
  }

  lemma ReportsExtend(before: seq<Event>, e: Event, key: Path)
    ensures forall r :: r < |before| ==> (ReportsKey(before + [e], r, key) <==> ReportsKey(before, r, key))
    ensures ReportsKey(before + [e], |before|, key) <==> e.Reported? && key in e.keys
  {
    assert forall r :: 0 <= r < |before| ==> (before + [e])[r] == before[r];
  }

  /**
   * At `i` a job that changed the path ended, holding no report of it; no report named it since, and the subject
   * still counts from then.
   */
  ghost predicate ChargedAt(trace: seq<Event>, i: int, subject: Job, path: Path, job: Job) {
    && 0 <= i < |trace| && trace[i].JobEnded? && trace[i].job == job
    && path in trace[i].window.paths && !HoldsReport(trace[..i], job, path)
    && forall n :: i < n < |trace| ==>
         && !(trace[n].Reported? && path in trace[n].keys)
         && !((trace[n].JobEnded? || trace[n].JobThrew?) && trace[n].job == subject)
  }

  ghost predicate Charges(s: Sets, path: Path, job: Job) {
    path in s.byJobs && job in s.byJobs[path]
  }

  ghost predicate RecordCharges(r: Record, subject: Job, path: Path, job: Job) {
    subject in r.subjects && Charges(r.subjects[subject], path, job)
  }

  /** The event ends the job, which changed the path while it held no report of it. */
  ghost predicate NewlyCharges(r: Record, e: Event, path: Path, job: Job) {
    e.JobEnded? && e.job == job && path in e.window.paths && !HeldIn(r, job, path)
  }

  /**
   * No reported change is charged to a job that held the report: every path a subject's changes charge to a job was
   * changed by that job's own window while it held no report of it, since the subject's last job began, and no caller
   * reported it edited since.
   */
  lemma {:induction false} ChargesAreUnreported(trace: seq<Event>, subject: Job, path: Path, job: Job)
    requires ReportsDistinct(trace) && RecordCharges(After(trace), subject, path, job)
    ensures exists i :: ChargedAt(trace, i, subject, path, job)
  {
    hide *;
    LastTold(trace, subject, path, job);
    var before, e := trace[..|trace| - 1], trace[|trace| - 1];
    var r := After(before);
    assert trace == before + [e];
    if NewlyCharges(r, e, path, job) {
      ChargedNow(before, e, subject, path, job);
    } else {
      ChargedBefore(r, e, subject, path, job);
      ChargesAreUnreported(before, subject, path, job);
      var i :| ChargedAt(before, i, subject, path, job);
      ChargedStill(before, e, i, subject, path, job);
    }
  }

  lemma LastTold(trace: seq<Event>, subject: Job, path: Path, job: Job)
    requires ReportsDistinct(trace) && RecordCharges(After(trace), subject, path, job)
    ensures trace != []
    ensures ReportsDistinct(trace[..|trace| - 1])
    ensures After(trace) == Told(After(trace[..|trace| - 1]), trace[|trace| - 1])
  {
    assert After([]) == FRESH;
    hide Told;
  }

  lemma ChargedNow(before: seq<Event>, e: Event, subject: Job, path: Path, job: Job)
    requires ReportsDistinct(before) && NewlyCharges(After(before), e, path, job)
    ensures ChargedAt(before + [e], |before|, subject, path, job)
  {
    RunningHoldsReports(before, job, path);
    assert (before + [e])[..|before|] == before;
    hide After, HoldsReport;
  }

  lemma ChargedStill(before: seq<Event>, e: Event, i: int, subject: Job, path: Path, job: Job)
    requires ChargedAt(before, i, subject, path, job)
    requires !(e.Reported? && path in e.keys) && !((e.JobEnded? || e.JobThrew?) && e.job == subject)
    ensures ChargedAt(before + [e], i, subject, path, job)
  {
    hide HoldsReport;
    assert (before + [e])[..i] == before[..i];
    assert forall n :: 0 <= n < |before| ==> (before + [e])[n] == before[n];
  }

  /**
   * A charge an event did not add was there before, and the event neither reported the path nor began the subject
   * afresh.
   */
  lemma ChargedBefore(r: Record, e: Event, subject: Job, path: Path, job: Job)
    requires RecordCharges(Told(r, e), subject, path, job) && !NewlyCharges(r, e, path, job)
    ensures RecordCharges(r, subject, path, job)
    ensures !(e.Reported? && path in e.keys) && !((e.JobEnded? || e.JobThrew?) && e.job == subject)
  {
    if e.JobEnded? {
      var reported := if e.job in r.running then r.running[e.job] else {};
      var caused := e.window.paths - reported;
      var subjects := Interval(r.subjects, r.last, e.window.startDigests)[e.job := NOTHING];
      AddedCharges(subjects[subject], caused, e.window.paths * reported, e.job, path, job);
      hide AddedJob, AddedEdits, Interval;
      assert Charges(subjects[subject], path, job);
      IntervalCharges(r.subjects, r.last, e.window.startDigests, subject, path, job);
    } else if e.Observed? {
      IntervalCharges(r.subjects, r.last, e.digests, subject, path, job);
    }
  }

  lemma AddedCharges(s: Sets, caused: set<Path>, edits: set<Path>, charged: Job, path: Path, job: Job)
    ensures Charges(AddedEdits(AddedJob(s, caused, charged), edits), path, job) ==>
              Charges(s, path, job) || (path in caused && job == charged)
  {
    WithJobAt(s.byJobs, caused, charged, path);
    hide WithJob;
  }

  lemma IntervalCharges(
      subjects: map<Job, Sets>, from: Option<Digests>, to: Option<Digests>, subject: Job, path: Path, job: Job)
    requires subject in subjects && Charges(Interval(subjects, from, to)[subject], path, job)
    ensures Charges(subjects[subject], path, job)
  {
  }
}
