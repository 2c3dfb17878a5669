/** Counting the due times a workspace's own jobs caused, holding it at the bound, and releasing it at an edit. */
module RunHistories {
  import opened Options
  import opened SubjectChanges
  import opened ChangeRecords

  const SELF_CHANGE_HOLD_COUNT: nat := 3
  const UNINTERRUPTIBLE_COUNT: nat := SELF_CHANGE_HOLD_COUNT - 1

  /** How many times in a row a subject became due through its jobs' changes, and the paths every such time changed. */
  datatype Count = Count(count: nat, shared: JobsByPath)

  const NO_COUNT := Count(0, map[])

  /** The last run begun for a workspace. */
  datatype Attempt = Attempt(
    revision: nat, modules: string, nothingStored: bool, rerunOwed: bool, startCount: Count, qualifies: bool)

  /** How a build places paths, each by itself; placing some sets of paths may throw. */
  datatype Placement = Placement(inputs: Path -> bool, throwsOn: set<Path> -> bool)

  /** A workspace a round finds due. */
  datatype DueFacts = DueFacts(path: string, retryOnly: bool, fingerprinted: bool, placement: Placement)

  datatype NotKept = ChangedInside | Moved | OtherReason

  datatype Report = Report(
    revision: nat, stored: bool, interrupted: bool, notKept: Option<NotKept>, changedWhileRunning: bool, window: Window)

  /** What the history holds of one workspace. */
  datatype Workspace = Workspace(attempt: Option<Attempt>, decided: Option<Count>, held: Option<Count>)

  const UNKNOWN_WORKSPACE := Workspace(None, None, None)

  function PathsInside(paths: set<Path>, placement: Placement): Option<set<Path>> {
    if placement.throwsOn(paths) then None else Some(set p | p in paths && placement.inputs(p))
  }

  /**
   * Whether an edit reached the workspace's inputs since its last run began; no record, and no placement, read as
   * one.
   */
  predicate Edited(due: DueFacts, changes: Option<Sets>) {
    if changes.None? || changes.value.everywhere then true
    else
      var inside := PathsInside(changes.value.edits, due.placement);
      inside.None? || inside.value != {}
  }

  /** The paths inside the workspace's inputs that jobs changed, with those jobs; none when they cannot be placed. */
  function Caused(due: DueFacts, changes: Sets): JobsByPath {
    var placed := PathsInside(changes.byJobs.Keys, due.placement);
    if placed.None? then map[] else map p | p in changes.byJobs && p in placed.value :: changes.byJobs[p]
  }

  function SharedPaths(base: JobsByPath, caused: JobsByPath): JobsByPath {
    map p | p in caused && p in base :: base[p] + caused[p]
  }

  function FollowOn(base: Count, caused: JobsByPath): Count {
    var shared := if base.count > 0 then SharedPaths(base.shared, caused) else map[];
    if shared != map[] then Count(base.count + 1, shared) else Count(1, caused)
  }

  /** Interrupted by a change, stored with a verdict that labels it invalidated, or stored under its fingerprint. */
  predicate Qualifies(report: Report) {
    report.interrupted || (report.stored && (report.notKept.None? || !report.notKept.value.OtherReason?))
  }

  function NextCount(attempt: Option<Attempt>, due: DueFacts, changes: Option<Sets>): Count {
    if attempt.None? || !attempt.value.qualifies || due.retryOnly || !due.fingerprinted then NO_COUNT
    else if Edited(due, changes) then NO_COUNT
    else
      var caused := Caused(due, changes.value);
      if caused == map[] then NO_COUNT else FollowOn(attempt.value.startCount, caused)
  }

  function Decided(w: Workspace, due: DueFacts, changes: Option<Sets>): Workspace {
    if w.held.Some? && !Edited(due, changes) then w
    else
      var next := NextCount(w.attempt, due, changes);
      w.(decided := Some(next), held := if next.count < SELF_CHANGE_HOLD_COUNT then None else Some(next))
  }

  function StartCount(w: Workspace): Count {
    if w.decided.Some? then w.decided.value else NO_COUNT
  }

  /** Begun, the run counts as having stored nothing until it reports. */
  function Begun(w: Workspace, revision: nat, modules: string): Workspace {
    w.(attempt := Some(Attempt(revision, modules, true, false, StartCount(w), false)))
  }

  /** Whether a run begun now is the once-more run the last one was owed. */
  predicate IsRerun(w: Workspace, revision: nat, modules: string) {
    w.attempt.Some? && w.attempt.value.rerunOwed
    && w.attempt.value.revision == revision && w.attempt.value.modules == modules
  }

  function EndedAttempt(begun: BegunRun, report: Report, revisionNow: nat): Attempt {
    Attempt(report.revision, begun.modules, !report.stored,
            report.changedWhileRunning && report.revision == revisionNow && !begun.isRerun,
            begun.startCount, Qualifies(report))
  }

  predicate RanAlready(w: Workspace, revision: nat, modules: string) {
    w.attempt.Some? && w.attempt.value.revision == revision && w.attempt.value.modules == modules
    && !w.attempt.value.rerunOwed
  }

  /** Whether no change may interrupt the next run, since one more count would hold the workspace. */
  predicate Uninterruptible(w: Workspace) {
    w.decided.Some? && w.decided.value.count == UNINTERRUPTIBLE_COUNT
  }

  datatype BegunRun = BegunRun(
    path: string, revision: nat, modules: string, isRerun: bool, startCount: Count, before: Option<Attempt>)

  /** Each path of `base` that also changed this time, with the jobs of both. */
  method CollectShared(base: JobsByPath, caused: JobsByPath) returns (shared: JobsByPath)
    ensures shared == SharedPaths(base, caused)
  {
    shared := map[];
    var todo := caused.Keys;
    while todo != {}
      invariant todo <= caused.Keys
      invariant shared == SharedPaths(base, caused) - todo
      decreases todo
    {
      var path :| path in todo;
      if path in base {
        shared := shared[path := base[path] + caused[path]];
      }
      todo := todo - {path};
    }
  }

  method CountNext(attempt: Option<Attempt>, due: DueFacts, changes: Option<Sets>) returns (next: Count)
    ensures next == NextCount(attempt, due, changes)
  {
    if attempt.None? || !attempt.value.qualifies || due.retryOnly || !due.fingerprinted { return NO_COUNT; }
    if Edited(due, changes) { return NO_COUNT; }
    var caused := Caused(due, changes.value);
    if caused == map[] { return NO_COUNT; }
    var base := attempt.value.startCount;
    var shared: JobsByPath := map[];
    if base.count > 0 {
      shared := CollectShared(base.shared, caused);
    }
    return if |shared| > 0 then Count(base.count + 1, shared) else Count(1, caused);
  }

  class RunHistory {
    var attempts: map<string, Attempt>
    var decided: map<string, Count>
    var held: map<string, Count>
    const changes: ChangeRecord

    ghost predicate Valid()
      reads this, changes, changes.Repr()
    {
      changes.Valid()
    }

    ghost function At(path: string): Workspace
      reads this
    {
      Workspace(Get(attempts, path), Get(decided, path), Get(held, path))
    }

    ghost predicate OthersKept(
      path: string, was: map<string, Attempt>, decidedWas: map<string, Count>, heldWas: map<string, Count>)
      reads this
    {
      attempts - {path} == was - {path} && decided - {path} == decidedWas - {path} && held - {path} == heldWas - {path}
    }

    constructor ()
      ensures Valid() && fresh(changes) && fresh(changes.Repr()) && forall p :: At(p) == UNKNOWN_WORKSPACE
    {
      attempts, decided, held := map[], map[], map[];
      changes := new ChangeRecord();
    }

    /** Its own fields are no part of the record's. */
    lemma Apart()
      ensures forall s :: s in changes.Repr() ==> s as object != this
    {
    }

    /**
     * Decides the due workspace's count, releasing its hold first when an edit reached its inputs; whether it is
     * held.
     */
    method Decide(due: DueFacts) returns (isHeld: bool)
      requires Valid()
      modifies this`decided, this`held
      ensures Valid()
      ensures At(due.path) == Decided(old(At(due.path)), due, Get(changes.Views(), RunOf(due.path)))
      ensures isHeld == At(due.path).held.Some?
      ensures OthersKept(due.path, old(attempts), old(decided), old(held))
    {
      hide ChangeRecord.Valid, ChangeRecord.Views, NextCount, Edited;
      var path := due.path;
      Apart();
      var subject := changes.Of(RunOf(path));
      if path in held {
        if !Edited(due, subject) { return true; }
        held := held - {path};
      }
      var next := CountNext(Get(attempts, path), due, subject);
      decided := decided[path := next];
      if next.count < SELF_CHANGE_HOLD_COUNT { return false; }
      held := held[path := next];
      return true;
    }

    method Began(path: string, modules: string, revision: nat) returns (begun: BegunRun)
      requires Valid()
      modifies this`attempts, changes`running
      ensures Valid()
      ensures At(path) == Begun(old(At(path)), revision, modules)
      ensures begun == BegunRun(path, revision, modules, IsRerun(old(At(path)), revision, modules),
                                StartCount(old(At(path))), old(At(path)).attempt)
      ensures changes.View() == Told(old(changes.View()), JobBegan(RunOf(path)))
      ensures OthersKept(path, old(attempts), old(decided), old(held))
    {
      hide ChangeRecord.Valid, ChangeRecord.View, Told;
      var before := Get(attempts, path);
      var isRerun := before.Some? && before.value.rerunOwed
                     && before.value.revision == revision && before.value.modules == modules;
      var startCount := if path in decided then decided[path] else NO_COUNT;
      changes.JobBegan(RunOf(path));
      Apart();
      attempts := attempts[path := Attempt(revision, modules, true, false, startCount, false)];
      begun := BegunRun(path, revision, modules, isRerun, startCount, before);
    }

    /** Records the run's report; whether it is owed once more. */
    method RunEnded(begun: BegunRun, report: Report, revisionNow: nat) returns (owedAgain: bool)
      requires Valid()
      modifies this`attempts, changes, changes.Repr()
      ensures Valid() && fresh(changes.Repr() - old(changes.Repr()))
      ensures At(begun.path) == old(At(begun.path)).(attempt := Some(EndedAttempt(begun, report, revisionNow)))
      ensures owedAgain == EndedAttempt(begun, report, revisionNow).rerunOwed
      ensures changes.View() == Told(old(changes.View()), JobEnded(RunOf(begun.path), report.window))
      ensures OthersKept(begun.path, old(attempts), old(decided), old(held))
    {
      hide ChangeRecord.Valid, ChangeRecord.View, Told;
      changes.JobEnded(report.window, RunOf(begun.path));
      var unmoved := report.changedWhileRunning && report.revision == revisionNow;
      owedAgain := unmoved && !begun.isRerun;
      Apart();
      attempts := attempts[begun.path := Attempt(report.revision, begun.modules, !report.stored, owedAgain,
                                                 begun.startCount, Qualifies(report))];
    }

    /** The run never began, so the run it replaced is the last run begun again. */
    method RunNotBegun(begun: BegunRun)
      requires Valid()
      modifies this`attempts, changes`running
      ensures Valid() && At(begun.path) == old(At(begun.path)).(attempt := begun.before)
      ensures changes.View() == Told(old(changes.View()), JobNotBegun(RunOf(begun.path)))
      ensures OthersKept(begun.path, old(attempts), old(decided), old(held))
    {
      hide ChangeRecord.Valid, ChangeRecord.View, Told;
      changes.JobNotBegun(RunOf(begun.path));
      Apart();
      attempts := if begun.before.None? then attempts - {begun.path} else attempts[begun.path := begun.before.value];
    }

    /** A run that threw keeps its attempt, as having stored nothing. */
    method RunThrew(begun: BegunRun)
      requires Valid()
      modifies changes
      ensures Valid() && fresh(changes.Repr() - old(changes.Repr())) && unchanged(this)
      ensures changes.View() == Told(old(changes.View()), JobThrew(RunOf(begun.path)))
    {
      hide ChangeRecord.Valid, ChangeRecord.View, Told;
      changes.JobThrew(RunOf(begun.path));
    }

    /** A refused run keeps its attempt too, though it changed nothing. */
    method RunRefused(begun: BegunRun)
      requires Valid()
      modifies changes`running
      ensures Valid() && unchanged(this)
      ensures changes.View() == Told(old(changes.View()), JobNotBegun(RunOf(begun.path)))
    {
      hide ChangeRecord.Valid, ChangeRecord.View, Told;
      changes.JobNotBegun(RunOf(begun.path));
    }
  }
}
