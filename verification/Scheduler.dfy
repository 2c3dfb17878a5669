/** One plan of the scheduler: what it discovers or runs next, and what beginning and ending a job leaves. */
module Schedulers {
  import opened Options
  import opened SubjectChanges
  import opened ChangeRecords
  import opened RunHistories
  import opened DiscoveryHistories
  import opened DueQueues

  /** The latest results beside the inputs, as one plan reads them. */
  datatype View = View(
    revision: nat, digests: Option<Digests>, inEffect: Option<InEffect>, listsFailed: bool, eligible: seq<Eligible>,
    targets: set<string>)

  datatype Step =
    | DiscoverStep
    | WaitStep(ms: nat)
    | RunStep(queued: Eligible)
    | IdleStep
    | AgainStep

  type Runs = map<string, Workspace>

  /** What decides the scheduler's jobs. */
  datatype Sched = Sched(discoveries: Discoveries, runs: Runs, retry: set<string>)

  function RunAt(runs: Runs, path: string): Workspace {
    if path in runs then runs[path] else UNKNOWN_WORKSPACE
  }

  predicate StoredNothing(w: Workspace) {
    w.attempt.Some? && w.attempt.value.nothingStored
  }

  predicate Retries(e: Eligible, w: Workspace) {
    w.held.None? && RetryOwed(e, StoredNothing(w))
  }

  /** The workspaces a periodic reconciliation retries, none of them held. */
  ghost function RetriesOf(eligible: seq<Eligible>, runs: Runs): set<string> {
    set i | 0 <= i < |eligible| && Retries(eligible[i], RunAt(runs, eligible[i].path)) :: eligible[i].path
  }

  function DueFactsOf(e: Eligible): DueFacts {
    DueFacts(e.path, StaleReason(e).None?, e.fingerprinted, e.placement)
  }

  /** What the plan leaves of a workspace it considers, and whether the workspace is due. */
  datatype Considered = Considered(workspace: Workspace, retry: bool, due: bool)

  function Consider(e: Eligible, w: Workspace, retry: bool, changes: Option<Sets>, revision: nat): Considered {
    if ReasonOf(e, retry).None? then Considered(w, retry, false)
    else
      var decided := Decided(w, DueFactsOf(e), changes);
      if decided.held.Some? then Considered(decided, false, false)
      else Considered(decided, retry, retry || !RanAlready(decided, revision, e.modules))
  }

  /** The workspaces of a discovery are told apart by their paths. */
  ghost predicate PathsDiffer(eligible: seq<Eligible>) {
    forall i, j :: 0 <= i < j < |eligible| ==> eligible[i].path != eligible[j].path
  }

  function ConsiderOne(
      s: Sched, e: Eligible, changes: map<Job, Sets>, revision: nat): Considered
  {
    Consider(e, RunAt(s.runs, e.path), e.path in s.retry, Get(changes, RunOf(e.path)), revision)
  }

  /** The state once the first `n` eligible workspaces have been considered. */
  ghost predicate ConsideredUpTo(
      before: Sched, after: Sched, eligible: seq<Eligible>, n: nat, changes: map<Job, Sets>, revision: nat)
    requires n <= |eligible|
  {
    && after.discoveries == before.discoveries
    && (forall i :: 0 <= i < n ==>
          var c := ConsiderOne(before, eligible[i], changes, revision);
          RunAt(after.runs, eligible[i].path) == c.workspace && (eligible[i].path in after.retry <==> c.retry))
    && forall p: string :: (forall i :: 0 <= i < n ==> eligible[i].path != p) ==>
         RunAt(after.runs, p) == RunAt(before.runs, p) && (p in after.retry <==> p in before.retry)
  }

  /** The due workspaces, in the order given. */
  ghost function DueOf(s: Sched, eligible: seq<Eligible>, changes: map<Job, Sets>, revision: nat): (due: seq<Eligible>)
    ensures forall e :: e in due <==> e in eligible && ConsiderOne(s, e, changes, revision).due
  {
    if eligible == [] then []
    else
      var last := eligible[|eligible| - 1];
      DueOf(s, eligible[..|eligible| - 1], changes, revision)
      + if ConsiderOne(s, last, changes, revision).due then [last] else []
  }

  class Scheduler {
    const runs: RunHistory
    const discoveries: DiscoveryHistory
    var retryWorkspaces: set<string>
    var periodicSeen: nat
    var periodicOwed: bool
    var roundRevision: Option<nat>
    var selectionOwed: bool
    var directTargets: set<string>
    var dirty: bool

    ghost predicate Valid()
      reads this, discoveries, runs, runs.changes, runs.changes.Repr()
    {
      && discoveries.changes == runs.changes
      && runs.Valid() && discoveries.View().Valid()
    }

    ghost function RunsView(): Runs
      reads runs
    {
      map p | p in runs.attempts.Keys + runs.decided.Keys + runs.held.Keys :: runs.At(p)
    }

    ghost function State(): Sched
      reads this`retryWorkspaces, discoveries, runs
    {
      Sched(discoveries.View(), RunsView(), retryWorkspaces)
    }

    constructor (periodicReconciliations: nat)
      ensures Valid() && State() == Sched(NO_DISCOVERIES, map[], {}) && periodicSeen == periodicReconciliations
    {
      var history := new RunHistory();
      runs := history;
      discoveries := new DiscoveryHistory(history.changes);
      retryWorkspaces, periodicSeen, periodicOwed := {}, periodicReconciliations, false;
      roundRevision, selectionOwed, directTargets, dirty := None, false, {}, true;
      new;
      forall p
        ensures p !in RunsView()
      {
        assert runs.At(p) == UNKNOWN_WORKSPACE;
      }
    }

    lemma AtRuns(path: string)
      ensures RunAt(RunsView(), path) == runs.At(path)
    {
    }

    /** Its own fields are no part of what its histories hold. */
    lemma Apart()
      ensures runs.changes as object != this && runs as object != this && discoveries as object != this
      ensures runs as object != discoveries && runs.changes as object != discoveries && runs.changes as object != runs
      ensures forall s :: s in runs.changes.Repr() ==> s as object != this && s as object != discoveries && s as object != runs
    {
    }

    method NoteRevision(revision: nat)
      modifies this`roundRevision, this`selectionOwed, this`dirty
      ensures roundRevision == Some(revision)
      ensures if old(roundRevision) == Some(revision) then selectionOwed == old(selectionOwed) && dirty == old(dirty)
              else selectionOwed && dirty
    {
      if Some(revision) == roundRevision { return; }
      roundRevision, selectionOwed, dirty := Some(revision), true, true;
    }

    method ArmRetries(view: View, ended: nat)
      requires Valid()
      modifies this`periodicSeen, this`periodicOwed, this`retryWorkspaces, this`dirty, discoveries`retry
      ensures Valid() && !periodicOwed && periodicSeen == if ended > old(periodicSeen) then ended else old(periodicSeen)
      ensures State() == if ended > old(periodicSeen) || old(periodicOwed) then RetriesArmed(old(State()), view)
                         else old(State())
    {
      hide ChangeRecord.Valid, RetriesOf, RunsView;
      Apart();
      if ended > periodicSeen {
        periodicSeen, periodicOwed := ended, true;
      }
      if !periodicOwed { return; }
      periodicOwed := false;
      var retryDiscovery := discoveries.ArmRetry(view.listsFailed);
      ArmWorkspaces(view.eligible);
      if retryDiscovery || |retryWorkspaces| > 0 { dirty := true; }
    }

    method ArmWorkspaces(eligible: seq<Eligible>)
      modifies this`retryWorkspaces
      ensures retryWorkspaces == RetriesOf(eligible, RunsView())
    {
      hide *;
      retryWorkspaces := {};
      NoRetries(RunsView());
      assert eligible[..0] == [];
      for i := 0 to |eligible|
        invariant retryWorkspaces == RetriesOf(eligible[..i], RunsView())
      {
        var e := eligible[i];
        RetriesNext(eligible, RunsView(), i);
        AtRuns(e.path);
        RetriesAt(e);
        if e.path !in runs.held {
          var storedNothing := e.path in runs.attempts && runs.attempts[e.path].nothingStored;
          if RetryOwed(e, storedNothing) {
            retryWorkspaces := retryWorkspaces + {e.path};
          }
        }
      }
      assert eligible[..|eligible|] == eligible;
    }

    lemma RetriesAt(e: Eligible)
      ensures Retries(e, runs.At(e.path)) <==>
              && e.path !in runs.held
              && RetryOwed(e, e.path in runs.attempts && runs.attempts[e.path].nothingStored)
    {
    }

    /** The due workspaces, their counts decided and those their counts hold left out, a held one's retry with them. */
    method Due(view: View, ghost changed: map<Job, Sets>) returns (due: seq<Eligible>)
      requires Valid() && PathsDiffer(view.eligible) && changed == runs.changes.Views()
      modifies this`retryWorkspaces, runs`decided, runs`held
      ensures Valid() && runs.changes.Views() == changed
      ensures ConsideredUpTo(old(State()), State(), view.eligible, |view.eligible|, changed, view.revision)
      ensures due == DueOf(old(State()), view.eligible, changed, view.revision)
    {
      hide *;
      ghost var was := State();
      due := [];
      ConsideredNone(was, view.eligible, changed, view.revision);
      var n := 0;
      while n < |view.eligible|
        invariant 0 <= n <= |view.eligible|
        invariant Valid() && runs.changes.Views() == changed
        invariant ConsideredUpTo(was, State(), view.eligible, n, changed, view.revision)
        invariant due == DueOf(was, view.eligible[..n], changed, view.revision)
        modifies this`retryWorkspaces, runs`decided, runs`held
      {
        ghost var now := State();
        var isDue := ConsiderNext(view.eligible[n], view.revision, changed);
        ConsideredMore(was, now, State(), view.eligible, n, changed, view.revision);
        DueNext(was, view.eligible, n, changed, view.revision);
        if isDue { due := due + [view.eligible[n]]; }
        n := n + 1;
      }
      assert view.eligible[..n] == view.eligible;
    }

    method ConsiderNext(e: Eligible, revision: nat, ghost changed: map<Job, Sets>) returns (isDue: bool)
      requires Valid() && changed == runs.changes.Views()
      modifies this`retryWorkspaces, runs`decided, runs`held
      ensures Valid() && runs.changes.Views() == changed
      ensures isDue == ConsiderOne(old(State()), e, changed, revision).due
      ensures ConsideredAt(old(State()), State(), e, ConsiderOne(old(State()), e, changed, revision))
    {
      hide ChangeRecord.Valid, ChangeRecord.Views, Decided, RunHistory.OthersKept, Discoveries.Valid, StaleReason;
      Apart();
      var path := e.path;
      var retry := path in retryWorkspaces;
      var stale := StaleReason(e);
      var reason := ReasonOf(e, retry);
      AtRuns(path);
      if reason.None? { return false; }
      var isHeld := runs.Decide(DueFactsOf(e));
      AtRuns(path);
      OthersAt(old(State()).runs, path, old(runs.attempts), old(runs.decided), old(runs.held));
      if isHeld {
        retryWorkspaces := retryWorkspaces - {path};
        return false;
      }
      var attempt := Get(runs.attempts, path);
      isDue := retry || !(attempt.Some? && attempt.value.revision == revision && attempt.value.modules == e.modules
                          && !attempt.value.rerunOwed);
    }

    /** Takes the view's reading of the inputs, and decides the discovery's count and hold by it. */
    method OpenRound(view: View) returns (ghost changed: map<Job, Sets>)
      requires Valid()
      modifies this`roundRevision, this`selectionOwed, this`dirty, discoveries, runs.changes`last, runs.changes.Repr()
      ensures Valid() && changed == runs.changes.Views() && runs.changes.subjects == old(runs.changes.subjects)
      ensures State() == old(State()).(
                discoveries := DecidedDiscovery(old(State()).discoveries, view.inEffect, Get(changed, Discovery)))
    {
      hide ChangeRecord.Valid, ChangeRecord.Views, ChangeRecord.View, Told, DecidedDiscovery, RunsView;
      Apart();
      NoteRevision(view.revision);
      runs.changes.Observe(view.digests);
      changed := runs.changes.Views();
      discoveries.Decide(view.inEffect);
    }

    /**
     * Decides the next step, reading the state and starting nothing: the discovery first, then the first of the queue
     * of due workspaces.
     */
    method Plan(revision: nat, view: View, ended: nat, changedAt: int, now: int)
        returns (step: Step, ghost changed: map<Job, Sets>)
      requires Valid() && PathsDiffer(view.eligible)
      modifies this, discoveries, runs`decided, runs`held, runs.changes`last, runs.changes.Repr()
      ensures Valid() && changed == runs.changes.Views()
      ensures view.revision != revision ==> step == AgainStep && State() == old(State())
      ensures view.revision == revision ==>
                Plans(old(State()), State(), step, view, changed, ended > old(periodicSeen) || old(periodicOwed),
                      changedAt, now, directTargets)
    {
      hide ChangeRecord.Valid, ChangeRecord.Views, ChangeRecord.View, Told, DecidedDiscovery, DueIn, Armed;
      hide RunHistory.OthersKept, RunsView, DueOf, ConsideredUpTo, RetriesOf, OrderQueue, PathsDiffer;
      Apart();
      changed := runs.changes.Views();
      if view.revision != revision { return AgainStep, changed; }
      changed := OpenRound(view);
      ArmRetries(view, ended);
      var wait := DueIn(discoveries.View(), revision, view.inEffect, changedAt, now);
      if wait.Some? {
        if wait.value > 0 { return WaitStep(wait.value), changed; }
        dirty := true;
        return DiscoverStep, changed;
      }
      var due := Due(view, changed);
      if selectionOwed {
        selectionOwed, directTargets := false, view.targets;
      }
      var queue := OrderQueue(due, directTargets);
      step := if |queue| == 0 then IdleStep else RunStep(queue[0]);
    }

    method BeginDiscovery(revision: nat) returns (begun: BegunDiscovery)
      requires Valid()
      modifies this`dirty, discoveries`attempt, discoveries`retry, runs.changes`running
      ensures Valid() && begun == BegunOf(old(State()).discoveries, revision)
      ensures State() == old(State()).(discoveries := DiscoveryBegunAt(old(State()).discoveries, revision))
    {
      hide ChangeRecord.Valid, ChangeRecord.View, Told;
      Apart();
      dirty := true;
      begun := discoveries.Began(revision);
    }

    method EndDiscovery(begun: BegunDiscovery, outcome: DiscoverOutcome, revisionNow: nat, now: int)
      requires Valid() && State().discoveries.held.None?
      modifies discoveries`attempt, discoveries`retry, runs.changes, runs.changes.Repr()
      ensures Valid()
      ensures State() == old(State()).(
                discoveries := DiscoveryAfter(old(State()).discoveries, begun, outcome, revisionNow, now))
    {
      hide ChangeRecord.Valid, ChangeRecord.View, Told;
      Apart();
      match outcome
      case Discovered(report) => discoveries.Ended(begun, report, revisionNow, now);
      case DiscoverNotBegun => discoveries.NotBegun(begun);
      case DiscoverThrew => discoveries.Threw(begun);
    }

    method BeginRun(queued: Eligible, revision: nat) returns (begun: BegunRun, retried: bool, uninterruptible: bool)
      requires Valid()
      modifies this`retryWorkspaces, this`dirty, runs`attempts, runs.changes`running
      ensures Valid() && State().discoveries == old(State()).discoveries
      ensures var w := RunAt(old(State()).runs, queued.path);
              && begun == BegunRun(queued.path, revision, queued.modules, IsRerun(w, revision, queued.modules),
                                   StartCount(w), w.attempt)
              && retried == (queued.path in old(State()).retry) && uninterruptible == Uninterruptible(w)
              && OneRunChanged(old(State()), State(), queued.path, Begun(w, revision, queued.modules), false)
    {
      hide ChangeRecord.Valid, ChangeRecord.View, Told, RunHistory.OthersKept;
      Apart();
      var path := queued.path;
      AtRuns(path);
      retried := path in retryWorkspaces;
      retryWorkspaces := retryWorkspaces - {path};
      uninterruptible := path in runs.decided && runs.decided[path].count == UNINTERRUPTIBLE_COUNT;
      begun := runs.Began(path, queued.modules, revision);
      dirty := true;
      AtRuns(path);
      OthersAt(old(State()).runs, path, old(runs.attempts), old(runs.decided), old(runs.held));
    }

    /** The job's end; one that never began is refused when neither a stop nor a change of the revision says why. */
    method EndRun(begun: BegunRun, retried: bool, outcome: RunOutcome, revisionNow: nat)
      requires Valid()
      modifies this`retryWorkspaces, runs`attempts, runs.changes, runs.changes.Repr()
      ensures Valid() && State().discoveries == old(State()).discoveries
      ensures var w := RunAt(old(State()).runs, begun.path);
              OneRunChanged(old(State()), State(), begun.path, RunAfter(w, begun, outcome, revisionNow),
                            begun.path in old(State()).retry || (retried && NeverBegan(begun, outcome, revisionNow)))
    {
      hide ChangeRecord.Valid, ChangeRecord.View, Told, RunHistory.OthersKept;
      Apart();
      var path := begun.path;
      AtRuns(path);
      match outcome
      case RunThrew => runs.RunThrew(begun);
      case Reported(report) =>
        var owedAgain := runs.RunEnded(begun, report, revisionNow);
        AtRuns(path);
        OthersAt(old(State()).runs, path, old(runs.attempts), old(runs.decided), old(runs.held));
      case NoReport(stopping) =>
        if !stopping && revisionNow == begun.revision {
          runs.RunRefused(begun);
        } else {
          runs.RunNotBegun(begun);
          AtRuns(path);
          OthersAt(old(State()).runs, path, old(runs.attempts), old(runs.decided), old(runs.held));
          if retried { retryWorkspaces := retryWorkspaces + {path}; }
        }
    }

    lemma OthersAt(
        before: Runs, path: string, attempts: map<string, Attempt>, decided: map<string, Count>,
        held: map<string, Count>)
      requires runs.OthersKept(path, attempts, decided, held)
      requires forall p :: RunAt(before, p) == Workspace(Get(attempts, p), Get(decided, p), Get(held, p))
      ensures forall p :: p != path ==> RunAt(RunsView(), p) == RunAt(before, p)
    {
      forall p | p != path
        ensures RunAt(RunsView(), p) == RunAt(before, p)
      {
        AtRuns(p);
        KeptAt(runs.attempts, attempts, path, p);
        KeptAt(runs.decided, decided, path, p);
        KeptAt(runs.held, held, path, p);
      }
    }
  }

  lemma NoRetries(runs: Runs)
    ensures RetriesOf([], runs) == {}
  {
  }

  lemma KeptAt<T>(now: map<string, T>, was: map<string, T>, path: string, p: string)
    requires now - {path} == was - {path} && p != path
    ensures Get(now, p) == Get(was, p)
  {
    assert p in now <==> p in now - {path};
    assert p in was <==> p in was - {path};
  }

  datatype DiscoverOutcome = Discovered(report: DiscoverReport) | DiscoverNotBegun | DiscoverThrew

  datatype RunOutcome = Reported(report: Report) | NoReport(stopping: bool) | RunThrew

  function DiscoveryAfter(
      d: Discoveries, begun: BegunDiscovery, outcome: DiscoverOutcome, revisionNow: nat, now: int): Discoveries
  {
    match outcome
    case Discovered(report) => DiscoveryEnded(d, begun, report, revisionNow, now)
    case DiscoverNotBegun => d.(attempt := begun.before, retry := d.retry || begun.retry)
    case DiscoverThrew => d
  }

  /** The run left no report because of a stop or of a change of the revision. */
  predicate NeverBegan(begun: BegunRun, outcome: RunOutcome, revisionNow: nat) {
    outcome.NoReport? && (outcome.stopping || revisionNow != begun.revision)
  }

  function RunAfter(w: Workspace, begun: BegunRun, outcome: RunOutcome, revisionNow: nat): Workspace {
    match outcome
    case Reported(report) => w.(attempt := Some(EndedAttempt(begun, report, revisionNow)))
    case NoReport(_) => if NeverBegan(begun, outcome, revisionNow) then w.(attempt := begun.before) else w
    case RunThrew => w
  }

  /** One workspace's record and retry are these now, and every other's are as they were. */
  ghost predicate OneRunChanged(before: Sched, after: Sched, path: string, w: Workspace, retry: bool) {
    && RunAt(after.runs, path) == w && (path in after.retry <==> retry)
    && forall p :: p != path ==>
         RunAt(after.runs, p) == RunAt(before.runs, p) && (p in after.retry <==> p in before.retry)
  }

  /** What a plan at the view's own revision leaves, and the step it takes. */
  ghost predicate Plans(
    was: Sched, after: Sched, step: Step, view: View, changed: map<Job, Sets>, arms: bool, changedAt: int, now: int,
    targets: set<string>)
  {
    var decided := was.(discoveries := DecidedDiscovery(was.discoveries, view.inEffect, Get(changed, Discovery)));
    var armed := if arms then RetriesArmed(decided, view) else decided;
    var wait := DueIn(armed.discoveries, view.revision, view.inEffect, changedAt, now);
    if wait.Some? then
      after == armed && step == if wait.value > 0 then WaitStep(wait.value) else DiscoverStep
    else
      var queue := OrderQueue(DueOf(armed, view.eligible, changed, view.revision), targets);
      && ConsideredUpTo(armed, after, view.eligible, |view.eligible|, changed, view.revision)
      && step == if queue == [] then IdleStep else RunStep(queue[0])
  }

  ghost function RetriesArmed(s: Sched, view: View): Sched {
    Sched(Armed(s.discoveries, view.listsFailed), s.runs, RetriesOf(view.eligible, s.runs))
  }

  lemma RetriesNext(eligible: seq<Eligible>, runs: Runs, i: nat)
    requires i < |eligible|
    ensures RetriesOf(eligible[..i + 1], runs) ==
            RetriesOf(eligible[..i], runs)
            + if Retries(eligible[i], RunAt(runs, eligible[i].path)) then {eligible[i].path} else {}
  {
    var more, some := eligible[..i + 1], eligible[..i];
    assert forall k :: 0 <= k < i ==> more[k] == some[k];
    assert more[i] == eligible[i];
    hide Retries;
  }

  /** Considering one workspace leaves every other as it was. */
  ghost predicate ConsideredAt(before: Sched, after: Sched, e: Eligible, c: Considered) {
    && after.discoveries == before.discoveries
    && RunAt(after.runs, e.path) == c.workspace && (e.path in after.retry <==> c.retry)
    && forall p :: p != e.path ==>
         RunAt(after.runs, p) == RunAt(before.runs, p) && (p in after.retry <==> p in before.retry)
  }

  lemma ConsideredNone(s: Sched, eligible: seq<Eligible>, changes: map<Job, Sets>, revision: nat)
    ensures ConsideredUpTo(s, s, eligible, 0, changes, revision)
    ensures DueOf(s, [], changes, revision) == [] && eligible[..0] == []
  {
  }

  lemma ConsideredMore(
      was: Sched, now: Sched, after: Sched, eligible: seq<Eligible>, n: nat, changes: map<Job, Sets>, revision: nat)
    requires n < |eligible| && PathsDiffer(eligible)
    requires ConsideredUpTo(was, now, eligible, n, changes, revision)
    requires ConsideredAt(now, after, eligible[n], ConsiderOne(now, eligible[n], changes, revision))
    ensures ConsideredUpTo(was, after, eligible, n + 1, changes, revision)
    ensures ConsiderOne(now, eligible[n], changes, revision) == ConsiderOne(was, eligible[n], changes, revision)
  {
    hide Consider;
  }

  lemma DueNext(s: Sched, eligible: seq<Eligible>, n: nat, changes: map<Job, Sets>, revision: nat)
    requires n < |eligible|
    ensures DueOf(s, eligible[..n + 1], changes, revision) ==
            DueOf(s, eligible[..n], changes, revision)
            + if ConsiderOne(s, eligible[n], changes, revision).due then [eligible[n]] else []
  {
    assert eligible[..n + 1][..n] == eligible[..n];
    hide ConsiderOne;
  }
}
