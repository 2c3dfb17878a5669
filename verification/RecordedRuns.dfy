/** The run history read from the change record: what a run's window lists is what the next due time finds changed. */
module RecordedRuns {
  import opened Options
  import opened SubjectChanges
  import opened RunHistories
  import opened RunTraces
  import Records = ChangeRecords
  import ChangeTraces

  /**
   * What happens around one workspace, in order: a plan finds it due, a run of it ends, or the change record is told
   * anything else, by other jobs, callers and readings.
   */
  datatype Moment =
    | Plan(due: DueFacts)
    | RunEnd(revision: nat, modules: string, report: Option<Report>, revisionNow: nat)
    | Tell(told: Records.Event)

  function ToldBy(m: Moment, workspace: string): seq<Records.Event> {
    match m
    case Plan(_) => []
    case RunEnd(_, _, report, _) =>
      [if report.Some? then Records.JobEnded(RunOf(workspace), report.value.window)
       else Records.JobThrew(RunOf(workspace))]
    case Tell(told) => [told]
  }

  /** What the change record is told, in order. */
  ghost function Recorded(world: seq<Moment>, workspace: string): seq<Records.Event> {
    if world == [] then []
    else Recorded(world[..|world| - 1], workspace) + ToldBy(world[|world| - 1], workspace)
  }

  ghost function RecordAfter(world: seq<Moment>, workspace: string): Records.Record {
    Records.After(Recorded(world, workspace))
  }

  /** The workspace's due times and runs: each due time finds what the record holds for the workspace's runs. */
  ghost function Runs(world: seq<Moment>, workspace: string): seq<Event> {
    if world == [] then []
    else
      var before := world[..|world| - 1];
      Runs(before, workspace) + RunEvents(world[|world| - 1], RecordAfter(before, workspace), workspace)
  }

  /** What a moment adds to the workspace's due times and runs. */
  ghost function RunEvents(m: Moment, r: Records.Record, workspace: string): seq<Event> {
    match m
    case Plan(due) => [Due(due, Get(r.subjects, RunOf(workspace)))]
    case RunEnd(revision, modules, report, revisionNow) => [Ran(revision, modules, report, revisionNow)]
    case Tell(_) => []
  }

  /**
   * A workspace whose runs change `path`, one of its inputs. `inside` holds of everything its inputs ever hold, and
   * `paths` of everything that changes at all.
   */
  datatype Loop = Loop(workspace: string, path: Path, inside: Path -> bool, paths: set<Path>)

  /** The path is an input, and what changes is little enough to be counted one by one. */
  ghost predicate Countable(loop: Loop) { loop.inside(loop.path) && |loop.paths| <= MAX_COUNTED_CHANGES }

  ghost predicate Outside(paths: set<Path>, inside: Path -> bool) {
    forall p :: p in paths ==> !inside(p)
  }

  /** A window without a cause, read at its start and at its end. */
  ghost predicate ReadWindow(window: Window, paths: set<Path>) {
    window.causes == {} && window.startDigests.Some? && window.endDigests.Some? && window.paths <= paths
  }

  /** A readable reading that shows no difference inside the inputs since the last one. */
  ghost predicate NoEditSince(last: Option<Digests>, digests: Option<Digests>, loop: Loop) {
    && digests.Some?
    && (last.Some? ==>
          && ChangedPaths(last.value, digests.value) <= loop.paths
          && Outside(ChangedPaths(last.value, digests.value), loop.inside))
  }

  /** What is told edits nothing inside the inputs, reports nothing inside them, and ends no run of the workspace. */
  ghost predicate TellsNoEdit(r: Records.Record, told: Records.Event, loop: Loop) {
    match told
    case JobEnded(job, window) =>
      job != RunOf(loop.workspace) && ReadWindow(window, loop.paths) && NoEditSince(r.last, window.startDigests, loop)
    case JobThrew(job) => job != RunOf(loop.workspace)
    case Observed(digests) => NoEditSince(r.last, digests, loop)
    case Reported(_, keys) => Outside(keys, loop.inside)
    case _ => true
  }

  /**
   * Every run qualifies and its window lists the path, no reading or report shows an edit inside the inputs, and each
   * plan has a fingerprint and can place what it finds.
   */
  ghost predicate ChangesItself(m: Moment, r: Records.Record, loop: Loop) {
    match m
    case Plan(due) =>
      && !due.retryOnly && due.fingerprinted && due.placement.inputs(loop.path)
      && (forall p :: due.placement.inputs(p) ==> loop.inside(p)) && forall s :: !due.placement.throwsOn(s)
    case RunEnd(_, _, report, _) =>
      && report.Some? && Qualifies(report.value)
      && ReadWindow(report.value.window, loop.paths) && loop.path in report.value.window.paths
    case Tell(told) => TellsNoEdit(r, told, loop)
  }

  ghost predicate AlwaysChangesItself(world: seq<Moment>, loop: Loop) {
    forall i :: 0 <= i < |world| ==> ChangesItself(world[i], RecordAfter(world[..i], loop.workspace), loop)
  }

  /** Nothing but what jobs changed is known inside the inputs. */
  ghost predicate NoEditKnown(s: Sets, loop: Loop) {
    !s.everywhere && s.Known() <= loop.paths && Outside(s.edits, loop.inside)
  }

  ghost predicate NoReportInside(r: Records.Record, loop: Loop) {
    && (forall j :: j in r.running ==> Outside(r.running[j], loop.inside))
    && forall q :: q in r.unread ==> Outside(r.unread[q], loop.inside)
  }

  /** The workspace's changes inside its inputs are its jobs', the path among them. */
  ghost predicate ByItself(r: Records.Record, loop: Loop) {
    && r.last.Some? && RunOf(loop.workspace) in r.subjects
    && NoEditKnown(r.subjects[RunOf(loop.workspace)], loop)
    && loop.path in r.subjects[RunOf(loop.workspace)].byJobs
  }

  lemma FewerKnown(s: Sets, more: set<Path>, paths: set<Path>)
    requires s.Known() <= paths && more <= paths && |paths| <= MAX_COUNTED_CHANGES
    ensures |s.Known() + more| <= MAX_COUNTED_CHANGES
  {
    SmallerSubset(s.Known() + more, paths);
  }

  lemma AddedEditsKeeps(s: Sets, edits: set<Path>, loop: Loop)
    requires NoEditKnown(s, loop) && Countable(loop) && edits <= loop.paths && Outside(edits, loop.inside)
    ensures NoEditKnown(AddedEdits(s, edits), loop) && AddedEdits(s, edits).byJobs == s.byJobs
  {
    FewerKnown(s, edits, loop.paths);
  }

  lemma AddedJobKeeps(s: Sets, caused: set<Path>, job: Job, loop: Loop)
    requires NoEditKnown(s, loop) && Countable(loop) && caused <= loop.paths
    ensures NoEditKnown(AddedJob(s, caused, job), loop)
    ensures AddedJob(s, caused, job).byJobs.Keys == s.byJobs.Keys + caused
  {
    FewerKnown(s, caused, loop.paths);
    WithJobKeys(s.byJobs, caused, job);
    hide WithJob;
  }

  lemma ChargedKeeps(s: Sets, window: Window, reported: set<Path>, job: Job, loop: Loop)
    requires NoEditKnown(s, loop) && Countable(loop) && ReadWindow(window, loop.paths) && Outside(reported, loop.inside)
    ensures var charged := ChangeTraces.Charged(s, window, reported, job);
            && NoEditKnown(charged, loop)
            && charged.byJobs.Keys == s.byJobs.Keys + (window.paths - reported)
  {
    SmallerSubset(window.paths, loop.paths);
    var caused, edits := window.paths - reported, window.paths * reported;
    AddedJobKeeps(s, caused, job, loop);
    AddedEditsKeeps(AddedJob(s, caused, job), edits, loop);
    hide AddedJob, AddedEdits;
  }

  lemma IntervalKeeps(r: Records.Record, digests: Option<Digests>, loop: Loop)
    requires Countable(loop) && ByItself(r, loop) && NoEditSince(r.last, digests, loop)
    ensures var s := Records.Interval(r.subjects, r.last, digests);
            && RunOf(loop.workspace) in s && NoEditKnown(s[RunOf(loop.workspace)], loop)
            && loop.path in s[RunOf(loop.workspace)].byJobs
  {
    var edits := ChangedPaths(r.last.value, digests.value);
    SmallerSubset(edits, loop.paths);
    AddedEditsKeeps(r.subjects[RunOf(loop.workspace)], edits, loop);
    hide AddedEdits, NoEditKnown, ChangedPaths;
  }

  /** What any job that ended leaves of a workspace whose changes are by itself, and of its own run a fresh such start. */
  lemma EndedKeeps(r: Records.Record, window: Window, job: Job, loop: Loop)
    requires Countable(loop) && NoReportInside(r, loop) && ReadWindow(window, loop.paths)
    requires if job == RunOf(loop.workspace) then loop.path in window.paths
             else ByItself(r, loop) && NoEditSince(r.last, window.startDigests, loop)
    ensures ByItself(Records.Ended(r, window, job), loop)
  {
    var mine, reported, after := RunOf(loop.workspace), ChangeTraces.HeldReports(r, job), Records.Ended(r, window, job);
    assert Outside(reported, loop.inside);
    assert after.last == window.endDigests;
    ChangeTraces.EndedIs(r, window, job, mine);
    var s := if job == mine then NOTHING else Records.Interval(r.subjects, r.last, window.startDigests)[mine];
    assert NoEditKnown(s, loop) && (job != mine ==> loop.path in s.byJobs) by {
      if job != mine { IntervalKeeps(r, window.startDigests, loop); }
    }
    ChargedKeeps(s, window, reported, job, loop);
    hide Records.Ended, Records.Interval, ChangeTraces.HeldReports, ChangeTraces.Charged, NoEditKnown;
  }

  lemma NoReportKept(r: Records.Record, told: Records.Event, loop: Loop)
    requires NoReportInside(r, loop) && (told.Reported? ==> Outside(told.keys, loop.inside))
    ensures NoReportInside(Records.Told(r, told), loop)
  {
    hide Records.Interval, Records.EveryJob, Records.EveryMoved;
  }

  lemma ToldKeeps(r: Records.Record, told: Records.Event, loop: Loop)
    requires Countable(loop) && NoReportInside(r, loop) && ByItself(r, loop) && TellsNoEdit(r, told, loop)
    ensures ByItself(Records.Told(r, told), loop)
  {
    match told {
      case JobEnded(job, window) => EndedKeeps(r, window, job, loop);
      case Observed(digests) => IntervalKeeps(r, digests, loop);
      case Reported(_, keys) =>
        var s := r.subjects[RunOf(loop.workspace)];
        assert Records.EveryMoved(r.subjects, keys)[RunOf(loop.workspace)] == MovedToEdits(s, keys);
        assert MovedToEdits(s, keys).Known() == s.Known();
      case _ =>
    }
    hide Records.Ended, Records.Interval;
  }

  lemma RecordedMore(world: seq<Moment>, workspace: string)
    requires world != []
    ensures var n := |world| - 1;
            RecordAfter(world, workspace) ==
            match world[n]
            case Plan(_) => RecordAfter(world[..n], workspace)
            case RunEnd(_, _, report, _) =>
              Records.Told(RecordAfter(world[..n], workspace),
                           if report.Some? then Records.JobEnded(RunOf(workspace), report.value.window)
                           else Records.JobThrew(RunOf(workspace)))
            case Tell(told) => Records.Told(RecordAfter(world[..n], workspace), told)
  {
    var n := |world| - 1;
    var before, added := Recorded(world[..n], workspace), ToldBy(world[n], workspace);
    if added == [] {
      assert before + added == before;
    } else {
      assert (before + added)[..|before|] == before;
    }
    hide Records.Told;
  }

  lemma AlwaysBefore(world: seq<Moment>, loop: Loop)
    requires AlwaysChangesItself(world, loop) && world != []
    ensures AlwaysChangesItself(world[..|world| - 1], loop)
    ensures ChangesItself(world[|world| - 1], RecordAfter(world[..|world| - 1], loop.workspace), loop)
  {
    hide ChangesItself, RecordAfter;
    var before := world[..|world| - 1];
    assert forall i :: 0 <= i < |before| ==> before[..i] == world[..i] && before[i] == world[i];
  }

  ghost predicate HasRun(world: seq<Moment>) { exists i :: 0 <= i < |world| && world[i].RunEnd? }

  lemma HasRunMore(world: seq<Moment>)
    requires world != []
    ensures HasRun(world) <==> HasRun(world[..|world| - 1]) || world[|world| - 1].RunEnd?
  {
    var before := world[..|world| - 1];
    assert forall i :: 0 <= i < |before| ==> before[i] == world[i];
  }

  lemma NothingReported(loop: Loop)
    ensures NoReportInside(RecordAfter([], loop.workspace), loop) && !HasRun([])
  {
    assert Records.After([]) == Records.FRESH;
  }

  /** Whatever happens around it, no report inside is open, and after its first run its changes are by itself. */
  lemma {:induction false} StaysByItself(world: seq<Moment>, loop: Loop)
    requires Countable(loop) && AlwaysChangesItself(world, loop)
    ensures NoReportInside(RecordAfter(world, loop.workspace), loop)
    ensures HasRun(world) ==> ByItself(RecordAfter(world, loop.workspace), loop)
  {
    NothingReported(loop);
    if world != [] {
      var n := |world| - 1;
      var before, m := world[..n], world[n];
      hide *;
      AlwaysBefore(world, loop);
      RecordedMore(world, loop.workspace);
      StaysByItself(before, loop);
      HasRunMore(world);
      MomentKeeps(RecordAfter(before, loop.workspace), m, HasRun(before), RecordAfter(world, loop.workspace), loop);
    }
  }

  lemma MomentKeeps(r: Records.Record, m: Moment, ran: bool, next: Records.Record, loop: Loop)
    requires Countable(loop) && NoReportInside(r, loop) && (ran ==> ByItself(r, loop)) && ChangesItself(m, r, loop)
    requires next == match m
             case Plan(_) => r
             case RunEnd(_, _, report, _) =>
               Records.Told(r, if report.Some? then Records.JobEnded(RunOf(loop.workspace), report.value.window)
                               else Records.JobThrew(RunOf(loop.workspace)))
             case Tell(told) => Records.Told(r, told)
    ensures NoReportInside(next, loop) && (ran || m.RunEnd? ==> ByItself(next, loop))
  {
    hide NoReportInside, ByItself, Countable;
    match m {
      case Plan(_) =>
      case RunEnd(_, _, report, _) =>
        NoReportKept(r, Records.JobEnded(RunOf(loop.workspace), report.value.window), loop);
        EndedKeeps(r, report.value.window, RunOf(loop.workspace), loop);
      case Tell(told) =>
        NoReportKept(r, told, loop);
        if ran { ToldKeeps(r, told, loop); }
    }
  }

  /** So a plan after the first run finds no edit, and the path among what the workspace's jobs changed. */
  lemma PlanFindsItself(r: Records.Record, due: DueFacts, loop: Loop)
    requires Countable(loop) && ByItself(r, loop) && ChangesItself(Plan(due), r, loop)
    ensures var e := Due(due, Get(r.subjects, RunOf(loop.workspace)));
            SelfCaused(e) && loop.path in Caused(due, e.changes.value)
  {
    var s := r.subjects[RunOf(loop.workspace)];
    assert PathsInside(s.edits, due.placement) == Some({}) by {
      var inside := set p | p in s.edits && due.placement.inputs(p);
      assert inside == {};
    }
    assert loop.path in Caused(due, s);
  }

  lemma AlwaysMore(trace: seq<Event>, e: Event, path: Path)
    requires AlwaysChanges(trace, path) && (e.Ran? ==> QualifyingRun(e))
    requires e.Due? && LastRun(trace, |trace|) >= 0 ==> SelfCaused(e) && path in Caused(e.due, e.changes.value)
    ensures AlwaysChanges(trace + [e], path)
    ensures LastRun(trace + [e], |trace| + 1) == if e.Ran? then |trace| else LastRun(trace, |trace|)
  {
    hide SelfCaused, QualifyingRun, Caused;
    var all := trace + [e];
    forall d | 0 <= d < |all| && all[d].Due? && LastRun(all, d) >= 0
      ensures SelfCaused(all[d]) && path in CausedAt(all, d)
    {
      LastRunExtends(trace, e, d);
      if d < |trace| {
        assert all[d] == trace[d];
        CausedIs(trace, d);
      }
      CausedIs(all, d);
    }
    LastRunExtends(trace, e, |trace|);
    assert forall i :: 0 <= i < |trace| ==> all[i] == trace[i];
  }

  lemma MomentAlwaysChanges(trace: seq<Event>, m: Moment, r: Records.Record, loop: Loop)
    requires AlwaysChanges(trace, loop.path) && Countable(loop) && ChangesItself(m, r, loop)
    requires LastRun(trace, |trace|) >= 0 ==> ByItself(r, loop)
    ensures var all := trace + RunEvents(m, r, loop.workspace);
            && AlwaysChanges(all, loop.path)
            && (LastRun(all, |all|) >= 0 <==> LastRun(trace, |trace|) >= 0 || m.RunEnd?)
  {
    hide AlwaysChanges, ByItself, Countable, SelfCaused, Caused, LastRun;
    match m {
      case Plan(due) =>
        var e := Due(due, Get(r.subjects, RunOf(loop.workspace)));
        if LastRun(trace, |trace|) >= 0 { PlanFindsItself(r, due, loop); }
        AlwaysMore(trace, e, loop.path);
      case RunEnd(revision, modules, report, revisionNow) =>
        AlwaysMore(trace, Ran(revision, modules, report, revisionNow), loop.path);
      case Tell(_) =>
        assert trace + [] == trace;
    }
  }

  /** The workspace's trace of due times and runs, each due time self-caused by the path once a run went before. */
  lemma {:induction false} RunsAlwaysChange(world: seq<Moment>, loop: Loop)
    requires Countable(loop) && AlwaysChangesItself(world, loop)
    ensures AlwaysChanges(Runs(world, loop.workspace), loop.path)
    ensures HasRun(world) <==> LastRun(Runs(world, loop.workspace), |Runs(world, loop.workspace)|) >= 0
  {
    if world != [] {
      var n := |world| - 1;
      var before, m, r := world[..n], world[n], RecordAfter(world[..n], loop.workspace);
      AlwaysBefore(world, loop);
      RunsAlwaysChange(before, loop);
      StaysByItself(before, loop);
      HasRunMore(world);
      assert Runs(world, loop.workspace) == Runs(before, loop.workspace) + RunEvents(m, r, loop.workspace);
      hide *;
      MomentAlwaysChanges(Runs(before, loop.workspace), m, r, loop);
    }
  }

  /**
   * A workspace that only its own jobs change, and whose every run changes one of its inputs, is begun at most three
   * times, whatever other jobs and callers do: at the plan after the third run it is held, and not before.
   */
  lemma HeldAfterThreeRuns(world: seq<Moment>, loop: Loop)
    requires Planned(Runs(world, loop.workspace)) && Countable(loop) && AlwaysChangesItself(world, loop)
    ensures var trace := Runs(world, loop.workspace);
            && RunsOf(trace) <= SELF_CHANGE_HOLD_COUNT
            && (After(trace).held.Some? <==> RunsOf(trace) == SELF_CHANGE_HOLD_COUNT && trace[|trace| - 1].Due?)
            && (After(trace).held.Some? ==> loop.path in StartCount(After(trace)).shared)
  {
    hide *;
    var trace := Runs(world, loop.workspace);
    RunsAlwaysChange(world, loop);
    AtMostThreeRuns(trace, loop.path);
    HoldsAtThree();
    HeldSoFar(After(trace), RunsOf(trace), trace != [] && trace[|trace| - 1].Due?, loop.path);
  }

  lemma HeldSoFar(w: Workspace, runs: nat, due: bool, path: Path)
    requires ChangesSoFar(w, runs, due, path)
    ensures runs <= 3 && (w.held.Some? <==> runs == 3 && due) && (w.held.Some? ==> path in StartCount(w).shared)
  {
  }

  /** The run begins, ends stored with this window, and the workspace is due again. */
  ghost function Round(window: Window): seq<Moment> {
    [Tell(Records.JobBegan(RunOf("w"))), Ends(window), Plan(ANYWHERE)]
  }

  ghost predicate NothingOpen(r: Records.Record) {
    r.unread == map[] && r.running == map[]
  }

  function AllByRun(paths: set<Path>): Sets { Sets(map p | p in paths :: {RunOf("w")}, {}, false) }

  lemma ChargedAfresh(window: Window)
    requires window.causes == {} && |window.paths| <= MAX_COUNTED_CHANGES
    ensures ChangeTraces.Charged(NOTHING, window, {}, RunOf("w")) == AllByRun(window.paths)
  {
    var charged := AddedJob(NOTHING, window.paths, RunOf("w"));
    assert NOTHING.Known() + window.paths == window.paths;
    assert window.paths - {} == window.paths && window.paths * {} == {};
    assert charged.byJobs == map p | p in window.paths :: {RunOf("w")};
    assert charged.Known() == window.paths && charged.Known() + {} == window.paths;
  }

  lemma BeganOpens(r: Records.Record)
    requires NothingOpen(r)
    ensures var began := Records.Told(r, Records.JobBegan(RunOf("w")));
            began.unread == map[] && began.running == map[RunOf("w") := {}]
  {
    assert Records.UnreadKeys(map[]) == {};
  }

  /** With no report open, the record holds exactly what the last run's window lists, charged to the run. */
  lemma RunLeavesWindow(r: Records.Record, window: Window)
    requires NothingOpen(r) && window.causes == {} && |window.paths| <= MAX_COUNTED_CHANGES
    ensures var began := Records.Told(r, Records.JobBegan(RunOf("w")));
            var ended := Records.Told(began, Records.JobEnded(RunOf("w"), window));
            NothingOpen(ended) && Get(ended.subjects, RunOf("w")) == Some(AllByRun(window.paths))
  {
    BeganOpens(r);
    ChargedAfresh(window);
    EndedLeaves(Records.Told(r, Records.JobBegan(RunOf("w"))), window);
    hide *;
  }

  lemma EndedLeaves(r: Records.Record, window: Window)
    requires r.unread == map[] && r.running == map[RunOf("w") := {}]
    requires ChangeTraces.Charged(NOTHING, window, {}, RunOf("w")) == AllByRun(window.paths)
    ensures var ended := Records.Told(r, Records.JobEnded(RunOf("w"), window));
            NothingOpen(ended) && Get(ended.subjects, RunOf("w")) == Some(AllByRun(window.paths))
  {
    ChangeTraces.EndedIs(r, window, RunOf("w"), RunOf("w"));
    assert r.running - {RunOf("w")} == map[];
    hide ChangeTraces.Charged, Records.Interval, Records.EveryEverywhere, Records.EveryJob, AllByRun;
  }

  lemma WorldMore(world: seq<Moment>, m: Moment)
    ensures Runs(world + [m], "w") == Runs(world, "w") + RunEvents(m, RecordAfter(world, "w"), "w")
    ensures Recorded(world + [m], "w") == Recorded(world, "w") + ToldBy(m, "w")
    ensures m.Plan? ==> RecordAfter(world + [m], "w") == RecordAfter(world, "w")
    ensures !m.Plan? ==> RecordAfter(world + [m], "w") == Records.Told(RecordAfter(world, "w"), ToldBy(m, "w")[0])
  {
    assert (world + [m])[..|world|] == world;
    var before, added := Recorded(world, "w"), ToldBy(m, "w");
    if m.Plan? {
      assert before + added == before;
    } else {
      assert (before + added)[..|before|] == before;
    }
    hide Records.Told;
  }

  lemma RoundAdds(world: seq<Moment>, window: Window)
    requires NothingOpen(RecordAfter(world, "w")) && window.causes == {} && |window.paths| <= MAX_COUNTED_CHANGES
    ensures var all := world + Round(window);
            && NothingOpen(RecordAfter(all, "w"))
            && Runs(all, "w") == Runs(world, "w") + [Stored(window)] + [ChangedDue(window.paths)]
            && Recorded(all, "w") ==
               Recorded(world, "w") + [Records.JobBegan(RunOf("w"))] + [Records.JobEnded(RunOf("w"), window)]
  {
    var r := RecordAfter(world, "w");
    var began, ended, plan := Tell(Records.JobBegan(RunOf("w"))), Ends(window), Plan(ANYWHERE);
    RoundIs(world, window);
    RunLeavesWindow(r, window);
    DueIs(window.paths);
    AddsAre(window, r);
    hide *;
    WorldMore(world, began);
    WorldMore(world + [began], ended);
    WorldMore(world + [began] + [ended], plan);
    AddsAre(window, RecordAfter(world + [began], "w"));
    AddsAre(window, RecordAfter(world + [began] + [ended], "w"));
    assert Runs(world, "w") + [] == Runs(world, "w");
    var told := Recorded(world, "w") + [Records.JobBegan(RunOf("w"))] + [Records.JobEnded(RunOf("w"), window)];
    assert told + [] == told;
  }

  ghost function Ends(window: Window): Moment {
    RunEnd(0, "", Some(Report(0, true, false, None, false, window)), 0)
  }

  lemma RoundIs(world: seq<Moment>, window: Window)
    ensures world + Round(window) == world + [Tell(Records.JobBegan(RunOf("w")))] + [Ends(window)] + [Plan(ANYWHERE)]
  {
  }

  lemma DueIs(paths: set<Path>)
    ensures ChangedDue(paths) == Due(ANYWHERE, Some(AllByRun(paths)))
  {
  }

  lemma AddsAre(window: Window, r: Records.Record)
    ensures RunEvents(Tell(Records.JobBegan(RunOf("w"))), r, "w") == []
    ensures RunEvents(Ends(window), r, "w") == [Stored(window)] && Ends(window).RunEnd?
    ensures RunEvents(Plan(ANYWHERE), r, "w") == [Due(ANYWHERE, Get(r.subjects, RunOf("w")))]
    ensures ToldBy(Tell(Records.JobBegan(RunOf("w"))), "w") == [Records.JobBegan(RunOf("w"))]
    ensures ToldBy(Ends(window), "w") == [Records.JobEnded(RunOf("w"), window)]
    ensures ToldBy(Plan(ANYWHERE), "w") == []
  {
  }

  /** How the inputs `a` and `b` read after each of the four runs. */
  function Reading(a: string, b: string): Option<Digests> { Some(map["a" := a, "b" := b]) }

  const FIRST := Window({"a"}, {}, Reading("0", "0"), Reading("1", "0"))
  const SECOND := Window({"a", "b"}, {}, Reading("1", "0"), Reading("2", "1"))
  const THIRD := Window({"b"}, {}, Reading("2", "1"), Reading("2", "2"))
  const FOURTH := Window({"b"}, {}, Reading("2", "2"), Reading("2", "3"))

  /** Four runs, each due time after them finding what the run before it changed: `a`, then both, then `b` and `b`. */
  ghost function NotHeld(): seq<Moment> {
    [Plan(ANYWHERE)] + Round(FIRST) + Round(SECOND) + Round(THIRD) + Round(FOURTH)
  }

  ghost function NotHeldTrace(): seq<Event> {
    [Due(ANYWHERE, None)]
    + [Stored(FIRST)] + [ChangedDue({"a"})]
    + [Stored(SECOND)] + [ChangedDue({"a", "b"})]
    + [Stored(THIRD)] + [ChangedDue({"b"})]
    + [Stored(FOURTH)] + [ChangedDue({"b"})]
  }

  lemma NotHeldRuns()
    ensures Runs(NotHeld(), "w") == NotHeldTrace()
    ensures ChangeTraces.WindowsVouch(Recorded(NotHeld(), "w"))
  {
    var start := [Plan(ANYWHERE)];
    Starts();
    WindowsList();
    hide *;
    RoundAdds(start, FIRST);
    RoundAdds(start + Round(FIRST), SECOND);
    RoundAdds(start + Round(FIRST) + Round(SECOND), THIRD);
    RoundAdds(start + Round(FIRST) + Round(SECOND) + Round(THIRD), FOURTH);
    NotHeldIs();
    var r0: seq<Records.Event> := [];
    VouchMore(r0, FIRST);
    var r1 := r0 + [Records.JobBegan(RunOf("w"))] + [Records.JobEnded(RunOf("w"), FIRST)];
    VouchMore(r1, SECOND);
    var r2 := r1 + [Records.JobBegan(RunOf("w"))] + [Records.JobEnded(RunOf("w"), SECOND)];
    VouchMore(r2, THIRD);
    VouchMore(r2 + [Records.JobBegan(RunOf("w"))] + [Records.JobEnded(RunOf("w"), THIRD)], FOURTH);
  }

  lemma Starts()
    ensures Runs([Plan(ANYWHERE)], "w") == [Due(ANYWHERE, None)]
    ensures Recorded([Plan(ANYWHERE)], "w") == [] && NothingOpen(RecordAfter([Plan(ANYWHERE)], "w"))
    ensures ChangeTraces.WindowsVouch([])
  {
    assert Records.After([]) == Records.FRESH;
    WorldMore([], Plan(ANYWHERE));
    assert [] + [Plan(ANYWHERE)] == [Plan(ANYWHERE)];
  }

  lemma NotHeldIs()
    ensures NotHeld() == [Plan(ANYWHERE)] + Round(FIRST) + Round(SECOND) + Round(THIRD) + Round(FOURTH)
    ensures NotHeldTrace() ==
            [Due(ANYWHERE, None)]
            + [Stored(FIRST)] + [ChangedDue({"a"})]
            + [Stored(SECOND)] + [ChangedDue({"a", "b"})]
            + [Stored(THIRD)] + [ChangedDue({"b"})]
            + [Stored(FOURTH)] + [ChangedDue({"b"})]
  {
    hide Stored, ChangedDue, Round;
  }

  /** Each window lists what differs between its readings, and nothing else. */
  lemma WindowsList()
    ensures FIRST.paths == {"a"} && SECOND.paths == {"a", "b"} && THIRD.paths == FOURTH.paths == {"b"}
    ensures FIRST.causes == SECOND.causes == THIRD.causes == FOURTH.causes == {}
    ensures |FIRST.paths| <= MAX_COUNTED_CHANGES && |SECOND.paths| <= MAX_COUNTED_CHANGES
    ensures |THIRD.paths| <= MAX_COUNTED_CHANGES
    ensures ChangeTraces.Vouches(FIRST) && ChangeTraces.Vouches(SECOND)
    ensures ChangeTraces.Vouches(THIRD) && ChangeTraces.Vouches(FOURTH)
  {
    assert |{"a"}| == 1 && |{"a", "b"}| == 2 && |{"b"}| == 1;
  }

  lemma VouchMore(trace: seq<Records.Event>, window: Window)
    requires ChangeTraces.WindowsVouch(trace) && ChangeTraces.Vouches(window)
    ensures ChangeTraces.WindowsVouch(
              trace + [Records.JobBegan(RunOf("w"))] + [Records.JobEnded(RunOf("w"), window)])
  {
    hide ChangeTraces.Vouches;
    var all := trace + [Records.JobBegan(RunOf("w"))] + [Records.JobEnded(RunOf("w"), window)];
    assert forall i :: 0 <= i < |trace| ==> all[i] == trace[i];
  }

  lemma OneRound(trace: seq<Event>, count: nat, shared: set<Path>, window: Window, now: nat, sharedNow: set<Path>)
    requires DecidedAt(trace, count, shared) && window.paths != {} && (count < 2 || shared * window.paths == {})
    requires if count > 0 && shared * window.paths != {} then now == count + 1 && sharedNow == shared * window.paths
             else now == 1 && sharedNow == window.paths
    ensures DecidedAt(trace + [Stored(window)] + [ChangedDue(window.paths)], now, sharedNow)
  {
    hide *;
    RoundMore(trace, count, shared, window);
  }

  lemma NotHeldDecides()
    ensures Planned(NotHeldTrace()) && After(NotHeldTrace()).held.None?
  {
    FirstDecided();
    WindowsList();
    PathsMeet();
    hide *;
    NotHeldIs();
    var t := [Due(ANYWHERE, None)];
    OneRound(t, 0, {}, FIRST, 1, {"a"});
    t := t + [Stored(FIRST)] + [ChangedDue({"a"})];
    OneRound(t, 1, {"a"}, SECOND, 2, {"a"});
    t := t + [Stored(SECOND)] + [ChangedDue({"a", "b"})];
    OneRound(t, 2, {"a"}, THIRD, 1, {"b"});
    t := t + [Stored(THIRD)] + [ChangedDue({"b"})];
    OneRound(t, 1, {"b"}, FOURTH, 2, {"b"});
    t := t + [Stored(FOURTH)] + [ChangedDue({"b"})];
    DecidedHeld(t, 2, {"b"});
  }

  lemma PathsMeet()
    ensures {"a"} * {"a", "b"} == {"a"} != {} && {"a"} * {"b"} == {} && {"b"} * {"b"} == {"b"} != {}
  {
    assert "a" in {"a"} && "b" in {"b"};
  }

  lemma DecidedHeld(trace: seq<Event>, count: nat, shared: set<Path>)
    requires DecidedAt(trace, count, shared)
    ensures Planned(trace) && After(trace).held.None?
  {
    hide After, Planned;
  }

  /**
   * Three times in a row at the same input do not always hold: a count that starts again at one due time forgets the
   * path it had not shared, so three successive due times can all change `b` with no hold.
   */
  lemma ThreeInARowNotHeld()
    ensures exists world, times ::
              && Successive(Runs(world, "w"), times) && |times| == SELF_CHANGE_HOLD_COUNT
              && Planned(Runs(world, "w")) && ChangeTraces.WindowsVouch(Recorded(world, "w"))
              && times[SELF_CHANGE_HOLD_COUNT - 1] == |Runs(world, "w")| - 1
              && ChangedEachTime(Runs(world, "w"), times, "b") && After(Runs(world, "w")).held.None?
  {
    hide *;
    HoldsAtThree();
    NotHeldRuns();
    NotHeldDecides();
    NotHeldIs();
    WindowsList();
    var trace := NotHeldTrace();
    DueAfterRun(trace, 4, SECOND, "b");
    DueAfterRun(trace, 6, THIRD, "b");
    DueAfterRun(trace, 8, FOURTH, "b");
    ThreeTimes(trace, "b");
    assert Successive(Runs(NotHeld(), "w"), [4, 6, 8]);
  }
}
