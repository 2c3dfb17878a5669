/** At one input revision the scheduler runs out of jobs to begin: a measure every job shrinks. */
module Quiescence {
  import opened Options
  import opened SubjectChanges
  import opened RunHistories
  import opened DiscoveryHistories
  import opened DueQueues
  import opened Schedulers
  import P = FalsificationPlans
  import Turns = PlanTurns

  /** What a round at the revision did after its plan. */
  datatype Action =
    | Discovers(discovered: DiscoverOutcome, endedAt: int)
    | Runs(ran: RunOutcome)
    | Falsifies(turn: Turns.Turn)
    | ReadsCanaries(install: string)
    | BeginsNothing

  /**
   * What decides every job: the scheduler's own state, the falsification plan, and the installs whose canaries are
   * unread.
   */
  datatype State = State(sched: Sched, plan: P.Plan, unread: set<string>)

  datatype Round = Round(
    view: View, changed: map<Job, Sets>, arms: bool, changedAt: int, now: int, targets: set<string>, planned: Sched,
    step: Step, action: Action)

  /** The workspaces a discovery may list, each with its one list of test modules. */
  datatype Listed = Listed(path: string, modules: string)

  /** What stays fixed while the scheduler works at one revision. */
  datatype Setting = Setting(revision: nat, listed: seq<Listed>, known: Turns.Pairs)

  /** Every eligible workspace is a listed one, with the test modules listed for it. */
  ghost predicate ListsFrom(eligible: seq<Eligible>, listed: seq<Listed>) {
    forall i :: 0 <= i < |eligible| ==> Listed(eligible[i].path, eligible[i].modules) in listed
  }

  /** A job at an unmoved revision begins and ends; only a stop or a change of the revision keeps one from beginning. */
  ghost predicate Acts(before: State, round: Round, after: State, setting: Setting) {
    var revision, planned := setting.revision, round.planned;
    match round.action
    case Discovers(outcome, endedAt) =>
      var d := planned.discoveries;
      && round.step == DiscoverStep && !outcome.DiscoverNotBegun?
      && after == before.(sched := planned.(
           discoveries := DiscoveryAfter(DiscoveryBegunAt(d, revision), BegunOf(d, revision), outcome, revision, endedAt)))
    case Runs(outcome) =>
      && round.step.RunStep?
      && var q := round.step.queued;
         var w := RunAt(planned.runs, q.path);
         var begun := BegunRun(
           q.path, revision, q.modules, IsRerun(w, revision, q.modules), StartCount(w), w.attempt);
         && !NeverBegan(begun, outcome, revision) && (outcome.Reported? ==> outcome.report.revision == revision)
         && OneRunChanged(
              planned, after.sched, q.path, RunAfter(Begun(w, revision, q.modules), begun, outcome, revision), false)
         && after.sched.discoveries == planned.discoveries
         && after.plan == before.plan && after.unread == before.unread
    case Falsifies(turn) =>
      && round.step == IdleStep && Turns.Takes(before.plan, turn, setting.known, revision)
      && after == State(planned, Turns.AfterTurn(before.plan, turn, revision), before.unread)
    case ReadsCanaries(install) =>
      && round.step == IdleStep && install in before.unread
      && after == State(planned, before.plan, before.unread - {install})
    case BeginsNothing => after == before.(sched := planned)
  }

  ghost predicate RoundsTo(before: State, round: Round, after: State, setting: Setting) {
    && round.view.revision == setting.revision
    && PathsDiffer(round.view.eligible) && ListsFrom(round.view.eligible, setting.listed)
    && Plans(before.sched, round.planned, round.step, round.view, round.changed, round.arms, round.changedAt, round.now,
             round.targets)
    && Acts(before, round, after, setting)
  }

  /** How many discoveries may still begin at the revision. */
  function DiscoveryWeight(d: Discoveries, revision: nat): nat {
    (if d.attempt.None? || d.attempt.value.revision != revision then 2
     else if d.attempt.value.onceMoreFrom.Some? then 1 else 0)
    + if d.retry then 2 else 0
  }

  /** How many runs of the workspace may still begin at the revision. */
  function RunWeight(w: Workspace, retry: bool, revision: nat, modules: string): nat {
    (if w.attempt.None? || w.attempt.value.revision != revision || w.attempt.value.modules != modules then 2
     else if w.attempt.value.rerunOwed then 1 else 0)
    + if retry then 2 else 0
  }

  function WeightOf(s: Sched, l: Listed, revision: nat): nat {
    RunWeight(RunAt(s.runs, l.path), l.path in s.retry, revision, l.modules)
  }

  function RunsWeight(s: Sched, listed: seq<Listed>, revision: nat): nat {
    if listed == [] then 0 else WeightOf(s, listed[0], revision) + RunsWeight(s, listed[1..], revision)
  }

  ghost function Measure(state: State, setting: Setting): nat {
    DiscoveryWeight(state.sched.discoveries, setting.revision)
    + RunsWeight(state.sched, setting.listed, setting.revision)
    + |Turns.FreePairs(state.plan, setting.known, setting.revision)| + |state.unread|
  }

  lemma DecideWeighs(d: Discoveries, inEffect: Option<InEffect>, changes: Option<Sets>, revision: nat)
    ensures DiscoveryWeight(DecidedDiscovery(d, inEffect, changes), revision) <= DiscoveryWeight(d, revision)
  {
    hide HoldBy, CountOf, Releases;
  }

  lemma ArmWeighs(d: Discoveries, listsFailed: bool, revision: nat)
    ensures DiscoveryWeight(Armed(d, listsFailed), revision) <= DiscoveryWeight(d, revision) + 2
  {
  }

  /** A discovery begins only when its weight says one may, and leaves less. */
  lemma DiscoveryShrinks(
      d: Discoveries, revision: nat, inEffect: Option<InEffect>, changedAt: int, now: int, outcome: DiscoverOutcome,
      endedAt: int)
    requires DueIn(d, revision, inEffect, changedAt, now).Some? && !outcome.DiscoverNotBegun?
    ensures DiscoveryWeight(
              DiscoveryAfter(DiscoveryBegunAt(d, revision), BegunOf(d, revision), outcome, revision, endedAt), revision)
            < DiscoveryWeight(d, revision)
  {
    hide RestartedWait, Until;
  }

  lemma ConsiderWeighs(e: Eligible, w: Workspace, retry: bool, changes: Option<Sets>, revision: nat, modules: string)
    ensures var c := Consider(e, w, retry, changes, revision);
            && RunWeight(c.workspace, c.retry, revision, modules) <= RunWeight(w, retry, revision, modules)
            && (c.due ==> RunWeight(c.workspace, c.retry, revision, e.modules) > 0 && c.workspace.held.None?)
  {
    hide NextCount, Edited;
  }

  /** A run begins only when its weight says one may, and leaves less. */
  lemma RunShrinks(w: Workspace, retry: bool, revision: nat, path: string, modules: string, outcome: RunOutcome)
    requires RunWeight(w, retry, revision, modules) > 0
    requires var begun := BegunRun(path, revision, modules, IsRerun(w, revision, modules), StartCount(w), w.attempt);
             !NeverBegan(begun, outcome, revision)
    requires outcome.Reported? ==> outcome.report.revision == revision
    ensures var begun := BegunRun(path, revision, modules, IsRerun(w, revision, modules), StartCount(w), w.attempt);
            RunWeight(RunAfter(Begun(w, revision, modules), begun, outcome, revision), false, revision, modules)
            < RunWeight(w, retry, revision, modules)
  {
    hide Qualifies, StartCount;
  }

  /** A plan adds no weight to a workspace, but for the retry a periodic reconciliation arms. */
  lemma PlanWeighs(was: Sched, round: Round, l: Listed, revision: nat)
    requires round.view.revision == revision && PathsDiffer(round.view.eligible)
    requires Plans(was, round.planned, round.step, round.view, round.changed, round.arms, round.changedAt, round.now,
                   round.targets)
    ensures WeightOf(round.planned, l, revision) <= WeightOf(was, l, revision) + if round.arms then 2 else 0
    ensures DiscoveryWeight(round.planned.discoveries, revision)
            <= DiscoveryWeight(was.discoveries, revision) + if round.arms then 2 else 0
  {
    var armed := ArmedBy(was, round);
    ArmedWeighs(was, round, l, revision);
    PlanIs(was, round);
    hide Plans, DueIn, ArmedBy, DueOf, OrderQueue;
    if round.planned != armed {
      ConsideredWeighs(armed, round, l, revision);
    }
  }

  /** The state once a plan decided the discovery and armed what it arms. */
  ghost function ArmedBy(was: Sched, round: Round): Sched {
    var decided := was.(
      discoveries := DecidedDiscovery(was.discoveries, round.view.inEffect, Get(round.changed, Discovery)));
    if round.arms then RetriesArmed(decided, round.view) else decided
  }

  lemma PlanIs(was: Sched, round: Round)
    requires Plans(was, round.planned, round.step, round.view, round.changed, round.arms, round.changedAt, round.now,
                   round.targets)
    ensures var armed, view := ArmedBy(was, round), round.view;
            var wait := DueIn(armed.discoveries, view.revision, view.inEffect, round.changedAt, round.now);
            && (round.planned != armed || wait.None? ==>
                  ConsideredUpTo(armed, round.planned, view.eligible, |view.eligible|, round.changed, view.revision))
            && (round.step == DiscoverStep ==> wait.Some? && round.planned == armed)
            && (round.step.RunStep? ==>
                  && wait.None?
                  && OrderQueue(DueOf(armed, view.eligible, round.changed, view.revision), round.targets) != []
                  && round.step.queued
                     == OrderQueue(DueOf(armed, view.eligible, round.changed, view.revision), round.targets)[0])
  {
    hide DueIn, DueOf, OrderQueue, ConsideredUpTo, DecidedDiscovery, RetriesArmed;
  }

  lemma ArmedWeighs(was: Sched, round: Round, l: Listed, revision: nat)
    ensures WeightOf(ArmedBy(was, round), l, revision) <= WeightOf(was, l, revision) + if round.arms then 2 else 0
    ensures DiscoveryWeight(ArmedBy(was, round).discoveries, revision)
            <= DiscoveryWeight(was.discoveries, revision) + if round.arms then 2 else 0
  {
    var inEffect, changes := round.view.inEffect, Get(round.changed, Discovery);
    DecideWeighs(was.discoveries, inEffect, changes, revision);
    ArmWeighs(DecidedDiscovery(was.discoveries, inEffect, changes), round.view.listsFailed, revision);
    hide DiscoveryWeight, DecidedDiscovery, Armed, RetriesOf;
  }

  lemma ConsideredWeighs(armed: Sched, round: Round, l: Listed, revision: nat)
    requires round.view.revision == revision
    requires ConsideredUpTo(
               armed, round.planned, round.view.eligible, |round.view.eligible|, round.changed, revision)
    ensures WeightOf(round.planned, l, revision) <= WeightOf(armed, l, revision)
    ensures round.planned.discoveries == armed.discoveries
  {
    var eligible := round.view.eligible;
    hide RunWeight, RunAt, Consider;
    if exists i :: 0 <= i < |eligible| && eligible[i].path == l.path {
      var i :| 0 <= i < |eligible| && eligible[i].path == l.path;
      var e := eligible[i];
      ConsiderWeighs(
        e, RunAt(armed.runs, e.path), e.path in armed.retry, Get(round.changed, RunOf(e.path)), revision, l.modules);
    }
  }

  ghost predicate PathsListedOnce(listed: seq<Listed>) {
    forall l, m :: l in listed && m in listed && l.path == m.path ==> l == m
  }

  /** The workspace a round ran. */
  function RanPath(round: Round): Option<string> {
    if round.action.Runs? && round.step.RunStep? then Some(round.step.queued.path) else None
  }

  function One(b: bool): nat { if b then 1 else 0 }

  lemma QueuedWeighs(before: State, round: Round, after: State, setting: Setting)
    requires RoundsTo(before, round, after, setting) && round.step.RunStep?
    ensures var q := round.step.queued;
            && Listed(q.path, q.modules) in setting.listed
            && RunWeight(RunAt(round.planned.runs, q.path), q.path in round.planned.retry, setting.revision, q.modules) > 0
            && RunAt(round.planned.runs, q.path).held.None?
  {
    var armed, view, q := ArmedBy(before.sched, round), round.view, round.step.queued;
    PlanIs(before.sched, round);
    var due := DueOf(armed, view.eligible, round.changed, view.revision);
    QueueEmpty(due, round.targets);
    assert q in due;
    hide Plans, Acts, ArmedBy, DueOf, OrderQueue, Consider, RunWeight;
    var i :| 0 <= i < |view.eligible| && view.eligible[i] == q;
    ConsiderWeighs(q, RunAt(armed.runs, q.path), q.path in armed.retry, Get(round.changed, RunOf(q.path)),
                   view.revision, q.modules);
  }

  /** A discovery leaves less weight than the plan that began it found, and no other job adds any. */
  lemma DiscoveryActWeighs(before: State, round: Round, after: State, setting: Setting)
    requires RoundsTo(before, round, after, setting)
    ensures DiscoveryWeight(after.sched.discoveries, setting.revision) + One(round.action.Discovers?)
            <= DiscoveryWeight(round.planned.discoveries, setting.revision)
  {
    match round.action
    case Discovers(outcome, endedAt) =>
      PlanIs(before.sched, round);
      var armed := ArmedBy(before.sched, round);
      hide ArmedBy, Plans, DiscoveryWeight, DueIn, DiscoveryAfter;
      DiscoveryShrinks(
        armed.discoveries, setting.revision, round.view.inEffect, round.changedAt, round.now, outcome, endedAt);
    case _ =>
      hide Plans, RunWeight, DiscoveryWeight, Turns.Takes;
  }

  /** A run leaves its workspace less weight than the plan that began it found, and no job adds any to another. */
  lemma RunActWeighs(before: State, round: Round, after: State, setting: Setting, l: Listed)
    requires RoundsTo(before, round, after, setting) && l in setting.listed && PathsListedOnce(setting.listed)
    ensures WeightOf(after.sched, l, setting.revision) + One(RanPath(round) == Some(l.path))
            <= WeightOf(round.planned, l, setting.revision)
  {
    var revision, planned := setting.revision, round.planned;
    match round.action
    case Runs(outcome) =>
      QueuedWeighs(before, round, after, setting);
      var q := round.step.queued;
      hide Plans, RunWeight, RunAfter, DiscoveryWeight;
      if q.path == l.path {
        RunShrinks(RunAt(planned.runs, q.path), q.path in planned.retry, revision, q.path, q.modules, outcome);
      }
    case _ =>
      hide Plans, RunWeight, DiscoveryWeight, Turns.Takes;
  }

  ghost predicate Trace(states: seq<State>, rounds: seq<Round>, setting: Setting) {
    && |states| == |rounds| + 1
    && forall i :: 0 <= i < |rounds| ==> RoundsTo(states[i], rounds[i], states[i + 1], setting)
  }

  function Arms(rounds: seq<Round>): nat {
    if rounds == [] then 0 else Arms(rounds[..|rounds| - 1]) + One(rounds[|rounds| - 1].arms)
  }

  function DiscoveriesIn(rounds: seq<Round>): nat {
    if rounds == [] then 0 else DiscoveriesIn(rounds[..|rounds| - 1]) + One(rounds[|rounds| - 1].action.Discovers?)
  }

  function RunsIn(rounds: seq<Round>, path: string): nat {
    if rounds == [] then 0 else RunsIn(rounds[..|rounds| - 1], path) + One(RanPath(rounds[|rounds| - 1]) == Some(path))
  }

  lemma LastRound(states: seq<State>, rounds: seq<Round>, setting: Setting)
    requires Trace(states, rounds, setting) && rounds != []
    ensures Trace(states[..|rounds|], rounds[..|rounds| - 1], setting)
    ensures RoundsTo(states[|rounds| - 1], rounds[|rounds| - 1], states[|rounds|], setting)
  {
    hide RoundsTo;
  }

  lemma RoundWeighs(before: State, round: Round, after: State, setting: Setting, l: Listed)
    requires RoundsTo(before, round, after, setting) && l in setting.listed && PathsListedOnce(setting.listed)
    ensures DiscoveryWeight(after.sched.discoveries, setting.revision) + One(round.action.Discovers?)
            <= DiscoveryWeight(before.sched.discoveries, setting.revision) + 2 * One(round.arms)
    ensures WeightOf(after.sched, l, setting.revision) + One(RanPath(round) == Some(l.path))
            <= WeightOf(before.sched, l, setting.revision) + 2 * One(round.arms)
  {
    DiscoveryRoundWeighs(before, round, after, setting);
    RunActWeighs(before, round, after, setting, l);
    hide Acts, Plans, DiscoveryWeight, WeightOf;
    PlanWeighs(before.sched, round, l, setting.revision);
  }

  /**
   * At one revision the scheduler begins at most two discoveries, and at most two runs of each workspace whose list of
   * test modules stays the same, but for two more of each with every periodic reconciliation, and for those a retry
   * armed before owed.
   */
  lemma {:induction false} BoundedJobs(states: seq<State>, rounds: seq<Round>, setting: Setting, l: Listed)
    requires Trace(states, rounds, setting) && l in setting.listed && PathsListedOnce(setting.listed)
    ensures var first, last := states[0].sched, states[|rounds|].sched;
            && DiscoveriesIn(rounds) + DiscoveryWeight(last.discoveries, setting.revision)
               <= DiscoveryWeight(first.discoveries, setting.revision) + 2 * Arms(rounds)
            && RunsIn(rounds, l.path) + WeightOf(last, l, setting.revision)
               <= WeightOf(first, l, setting.revision) + 2 * Arms(rounds)
  {
    if rounds != [] {
      var n := |rounds|;
      LastRound(states, rounds, setting);
      BoundedJobs(states[..n], rounds[..n - 1], setting, l);
      RoundWeighs(states[n - 1], rounds[n - 1], states[n], setting, l);
      hide RoundsTo, DiscoveryWeight, WeightOf;
    }
  }

  lemma AtMostTwoEach(states: seq<State>, rounds: seq<Round>, setting: Setting, l: Listed)
    requires Trace(states, rounds, setting) && l in setting.listed && PathsListedOnce(setting.listed)
    requires Arms(rounds) == 0 && !states[0].sched.discoveries.retry && l.path !in states[0].sched.retry
    ensures DiscoveriesIn(rounds) <= 2 && RunsIn(rounds, l.path) <= 2
  {
    BoundedJobs(states, rounds, setting, l);
    hide Trace;
  }

  const NO_WINDOW := Window({}, {}, None, None)
  const CHANGED_AT_ONCE := Discovered(DiscoverReport(true, true, NO_WINDOW))

  /** A round that discovers, with no workspace listed, `inEffect` as the plan reads it. */
  function DiscoveringRound(planned: Sched, inEffect: Option<InEffect>, now: int): Round {
    Round(View(0, None, inEffect, false, [], {}), map[], false, 0, now, {}, planned, DiscoverStep,
          Discovers(CHANGED_AT_ONCE, 0))
  }

  function DiscoveredOnce(onceMoreFrom: Option<int>): Sched {
    Sched(Discoveries(Some(DiscoveryAttempt(0, true, onceMoreFrom, NO_COUNT)), false, NO_COUNT, None, None), map[], {})
  }

  /**
   * The bound is met: an input that changes while a discovery runs, at a revision it does not move, is discovered
   * twice.
   */
  lemma TwoDiscoveriesHappen(setting: Setting, plan: P.Plan)
    requires setting.revision == 0
    ensures exists states: seq<State>, rounds: seq<Round> ::
              && Trace(states, rounds, setting) && Arms(rounds) == 0 && DiscoveriesIn(rounds) == 2
              && !states[0].sched.discoveries.retry
  {
    var fresh_ := Sched(NO_DISCOVERIES, map[], {});
    var once := DiscoveredOnce(Some(MODIFIED_TIME_RESOLUTION_MS));
    var states := [State(fresh_, plan, {}), State(once, plan, {}), State(DiscoveredOnce(None), plan, {})];
    var first := DiscoveringRound(fresh_, None, 0);
    var second := DiscoveringRound(once, Some(InEffect(false, true)), MODIFIED_TIME_RESOLUTION_MS);
    assert RoundsTo(states[0], first, states[1], setting);
    assert RoundsTo(states[1], second, states[2], setting);
    var rounds := [first, second];
    CountsTwo(first, second);
    hide *;
    TraceOfTwo(states, rounds, setting);
    assert Arms(rounds) == 0 && DiscoveriesIn(rounds) == 2;
  }

  lemma TraceOfTwo(states: seq<State>, rounds: seq<Round>, setting: Setting)
    requires |states| == 3 && |rounds| == 2
    requires RoundsTo(states[0], rounds[0], states[1], setting) && RoundsTo(states[1], rounds[1], states[2], setting)
    ensures Trace(states, rounds, setting)
  {
    hide RoundsTo;
  }

  lemma CountsTwo(first: Round, second: Round)
    requires !first.arms && !second.arms && first.action.Discovers? && second.action.Discovers?
    ensures Arms([first, second]) == 0 && DiscoveriesIn([first, second]) == 2
  {
    assert [first, second][..1] == [first] && [first][..0] == [];
    assert Arms([first]) == 0 && DiscoveriesIn([first]) == 1;
  }

  function CountPath(listed: seq<Listed>, path: Option<string>): nat {
    if listed == [] then 0 else One(path == Some(listed[0].path)) + CountPath(listed[1..], path)
  }

  lemma {:induction false} Counted(listed: seq<Listed>, path: string)
    ensures CountPath(listed, Some(path)) > 0 <==> exists l :: l in listed && l.path == path
  {
    if listed != [] { Counted(listed[1..], path); }
  }

  lemma {:induction false} SumsTo(
      before: Sched, after: Sched, listed: seq<Listed>, revision: nat, ran: Option<string>, arms: bool)
    requires forall l :: l in listed ==>
               WeightOf(after, l, revision) + One(ran == Some(l.path)) <= WeightOf(before, l, revision) + 2 * One(arms)
    ensures RunsWeight(after, listed, revision) + CountPath(listed, ran)
            <= RunsWeight(before, listed, revision) + if arms then 2 * |listed| else 0
  {
    hide WeightOf;
    if listed != [] {
      SumsTo(before, after, listed[1..], revision, ran, arms);
      assert listed[0] in listed;
    }
  }

  /** What the rounds' periodic reconciliations arm at most: the discovery and every listed workspace. */
  function ArmedWeight(rounds: seq<Round>, listed: nat): nat {
    if rounds == [] then 0
    else ArmedWeight(rounds[..|rounds| - 1], listed) + if rounds[|rounds| - 1].arms then 2 + 2 * listed else 0
  }

  predicate BeginsJob(round: Round) { !round.action.BeginsNothing? }

  function JobsIn(rounds: seq<Round>): nat {
    if rounds == [] then 0 else JobsIn(rounds[..|rounds| - 1]) + One(BeginsJob(rounds[|rounds| - 1]))
  }

  /** What one round leaves of the two last parts of the measure. */
  lemma ActLeaves(before: State, round: Round, after: State, setting: Setting)
    requires RoundsTo(before, round, after, setting)
    ensures |Turns.FreePairs(after.plan, setting.known, setting.revision)| + |after.unread|
            + One(round.action.Falsifies? || round.action.ReadsCanaries?)
            <= |Turns.FreePairs(before.plan, setting.known, setting.revision)| + |before.unread|
  {
    match round.action
    case Falsifies(turn) =>
      Turns.TurnShrinks(before.plan, turn, setting.known, setting.revision);
      hide Plans, Turns.Takes, Turns.AfterTurn, Turns.FreePairs;
      Turns.SmallerSet(Turns.FreePairs(after.plan, setting.known, setting.revision),
                       Turns.FreePairs(before.plan, setting.known, setting.revision));
    case _ =>
      hide Plans, Turns.Takes, Turns.FreePairs;
  }

  lemma RoundShrinks(before: State, round: Round, after: State, setting: Setting)
    requires RoundsTo(before, round, after, setting) && PathsListedOnce(setting.listed)
    ensures Measure(after, setting) + One(BeginsJob(round))
            <= Measure(before, setting) + if round.arms then 2 + 2 * |setting.listed| else 0
  {
    ActLeaves(before, round, after, setting);
    var revision, listed := setting.revision, setting.listed;
    forall l | l in listed
      ensures WeightOf(after.sched, l, revision) + One(RanPath(round) == Some(l.path))
              <= WeightOf(before.sched, l, revision) + 2 * One(round.arms)
    {
      RoundWeighs(before, round, after, setting, l);
    }
    SumsTo(before.sched, after.sched, listed, revision, RanPath(round), round.arms);
    DiscoveryRoundWeighs(before, round, after, setting);
    RunIsListed(before, round, after, setting);
    hide RoundsTo, DiscoveryWeight, WeightOf, RunsWeight, CountPath, RanPath, Turns.FreePairs;
  }

  lemma DiscoveryRoundWeighs(before: State, round: Round, after: State, setting: Setting)
    requires RoundsTo(before, round, after, setting)
    ensures DiscoveryWeight(after.sched.discoveries, setting.revision) + One(round.action.Discovers?)
            <= DiscoveryWeight(before.sched.discoveries, setting.revision) + 2 * One(round.arms)
  {
    PlanWeighs(before.sched, round, Listed("", ""), setting.revision);
    DiscoveryActWeighs(before, round, after, setting);
    hide RoundsTo, DiscoveryWeight, WeightOf;
  }

  lemma RunIsListed(before: State, round: Round, after: State, setting: Setting)
    requires RoundsTo(before, round, after, setting)
    ensures CountPath(setting.listed, RanPath(round)) >= One(round.action.Runs?)
  {
    if round.action.Runs? {
      QueuedWeighs(before, round, after, setting);
      Counted(setting.listed, round.step.queued.path);
      hide RoundsTo, CountPath;
    }
  }

  /**
   * At one revision the scheduler comes to idle: with the lists of test modules and the standings' definitions fixed, it
   * begins no more jobs than the measure it started with, plus what each periodic reconciliation arms.
   */
  lemma {:induction false} ComesToIdle(states: seq<State>, rounds: seq<Round>, setting: Setting)
    requires Trace(states, rounds, setting) && PathsListedOnce(setting.listed)
    ensures JobsIn(rounds) + Measure(states[|rounds|], setting)
            <= Measure(states[0], setting) + ArmedWeight(rounds, |setting.listed|)
  {
    if rounds != [] {
      hide RoundsTo, Measure, Trace, BeginsJob;
      var n := |rounds|;
      LastRound(states, rounds, setting);
      ComesToIdle(states[..n], rounds[..n - 1], setting);
      RoundShrinks(states[n - 1], rounds[n - 1], states[n], setting);
    }
  }

  lemma DueWeighs(d: Discoveries, revision: nat, inEffect: Option<InEffect>, changedAt: int, now: int)
    requires DueIn(d, revision, inEffect, changedAt, now).Some?
    ensures DiscoveryWeight(d, revision) > 0
  {
    hide RestartedWait, Until;
  }

  lemma {:induction false} WeighsInSum(s: Sched, listed: seq<Listed>, revision: nat, l: Listed)
    requires l in listed
    ensures WeightOf(s, l, revision) <= RunsWeight(s, listed, revision)
  {
    hide WeightOf;
    if l != listed[0] { WeighsInSum(s, listed[1..], revision, l); }
  }

  /** A measure of nothing and a round that arms nothing: the plan is idle, and no job begins. */
  lemma NothingLeftIdles(before: State, round: Round, after: State, setting: Setting)
    requires RoundsTo(before, round, after, setting) && PathsListedOnce(setting.listed)
    requires !round.arms && Measure(before, setting) == 0
    ensures round.step == IdleStep && round.action.BeginsNothing? && Measure(after, setting) == 0
  {
    var revision := setting.revision;
    RoundShrinks(before, round, after, setting);
    PlanIs(before.sched, round);
    assert DiscoveryWeight(before.sched.discoveries, revision) == RunsWeight(before.sched, setting.listed, revision) == 0;
    if round.step.RunStep? {
      QueuedWeighs(before, round, after, setting);
      var l := Listed(round.step.queued.path, round.step.queued.modules);
      PlanWeighs(before.sched, round, l, revision);
      WeighsInSum(before.sched, setting.listed, revision, l);
      assert false;
    }
    var armed := ArmedBy(before.sched, round);
    if DueIn(armed.discoveries, revision, round.view.inEffect, round.changedAt, round.now).Some? {
      DueWeighs(armed.discoveries, revision, round.view.inEffect, round.changedAt, round.now);
      ArmedWeighs(before.sched, round, Listed("", ""), revision);
      assert false;
    }
    hide DueIn, DiscoveryWeight, RunsWeight, Acts, DueOf, OrderQueue, ConsideredUpTo, Turns.FreePairs;
  }

  lemma FirstRound(states: seq<State>, rounds: seq<Round>, setting: Setting, i: nat)
    requires Trace(states, rounds, setting) && i < |rounds|
    ensures RoundsTo(states[i], rounds[i], states[i + 1], setting)
  {
    hide RoundsTo;
  }

  lemma {:induction false} NeverArms(rounds: seq<Round>, i: nat)
    requires Arms(rounds) == 0 && i < |rounds|
    ensures !rounds[i].arms
  {
    if i < |rounds| - 1 { NeverArms(rounds[..|rounds| - 1], i); }
  }

  /** From then on every plan is idle, until an input changes or a reconciliation arms a retry. */
  lemma {:induction false} StaysIdle(states: seq<State>, rounds: seq<Round>, setting: Setting, i: nat)
    requires Trace(states, rounds, setting) && PathsListedOnce(setting.listed) && Arms(rounds) == 0
    requires Measure(states[0], setting) == 0 && i <= |rounds|
    ensures Measure(states[i], setting) == 0
    ensures i < |rounds| ==> rounds[i].step == IdleStep && rounds[i].action.BeginsNothing?
  {
    hide *;
    TraceLength(states, rounds, setting);
    if i > 0 {
      StaysIdle(states, rounds, setting, i - 1);
      FirstRound(states, rounds, setting, i - 1);
      NeverArms(rounds, i - 1);
      NothingLeftIdles(states[i - 1], rounds[i - 1], states[i], setting);
    }
    if i < |rounds| {
      FirstRound(states, rounds, setting, i);
      NeverArms(rounds, i);
      NothingLeftIdles(states[i], rounds[i], states[i + 1], setting);
    }
  }

  lemma TraceLength(states: seq<State>, rounds: seq<Round>, setting: Setting)
    requires Trace(states, rounds, setting)
    ensures |states| == |rounds| + 1
  {
    hide RoundsTo;
  }
}
