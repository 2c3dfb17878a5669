/** What the falsification plan keeps over any sequence of looks and jobs at one input revision. */
module PlanTurns {
  import opened Options
  import opened FalsificationPlans

  /**
   * How a job at an unmoved revision ended: its workspace waits, it ran to its end, or the time bound ended it. After
   * the last two its workspace waits too when nothing could be stored.
   */
  datatype Ending =
    | Waits(reason: string)
    | RanToEnd(left: map<string, string>)
    | Bound(runningId: string)
    | RanUnstored(left: map<string, string>, reason: string)
    | BoundUnstored(runningId: string, reason: string)
  {
    predicate ByBound() { Bound? || BoundUnstored? }
    predicate ToEnd() { RanToEnd? || RanUnstored? }
  }

  /** A look over these standings that took this job, and how the job ended. */
  datatype Turn = Turn(standings: seq<Standing>, job: PlannedJob, ending: Ending)

  type Pairs = set<(string, string)>

  ghost function Looked(plan: Plan, standings: seq<Standing>, revision: nat): Plan {
    Plan(Remembered(plan.definitions, standings), WaitingAt(plan.workspaces, revision))
  }

  ghost function Ended(plan: Plan, job: PlannedJob, ending: Ending, revision: nat): Plan {
    match ending
    case Waits(reason) => Waited(plan, job, revision, reason)
    case RanToEnd(left) => plan.(definitions := HeldMarks(plan.definitions, job, |job.definitions|, revision, left))
    case Bound(runningId) => plan.(definitions := BoundMarks(plan.definitions, job, revision, runningId))
    case RanUnstored(left, reason) =>
      var waited := Waited(plan, job, revision, reason);
      waited.(definitions := HeldMarks(waited.definitions, job, |job.definitions|, revision, left))
    case BoundUnstored(runningId, reason) =>
      Waited(plan.(definitions := BoundMarks(plan.definitions, job, revision, runningId)), job, revision, reason)
  }

  ghost function AfterTurn(plan: Plan, turn: Turn, revision: nat): Plan {
    Ended(Looked(plan, turn.standings, revision), turn.job, turn.ending, revision)
  }

  ghost function After(plan: Plan, turns: seq<Turn>, revision: nat): Plan {
    if turns == [] then plan else AfterTurn(After(plan, turns[..|turns| - 1], revision), turns[|turns| - 1], revision)
  }

  predicate Free(plan: Plan, digest: string, workspacePath: string, revision: nat) {
    && !(workspacePath in plan.workspaces && plan.workspaces[workspacePath].revision == revision)
    && !(digest in plan.definitions && plan.definitions[digest].heldAt == Some(revision))
  }

  /** The definitions of `known`, by digest and workspace, that may still be taken at the revision. */
  ghost function FreePairs(plan: Plan, known: Pairs, revision: nat): Pairs {
    set p | p in known && Free(plan, p.0, p.1, revision)
  }

  /** The standings hold the digest of every known definition, and every waiting definition is known. */
  ghost predicate Stays(standings: seq<Standing>, known: Pairs) {
    && (forall p :: p in known ==> exists s :: s in standings && s.digest == Some(p.0))
    && (forall c :: c in Candidates(standings) ==> (c.definition.digest, c.workspacePath) in known)
  }

  /** The turn's job is one its look may take, and a bound ended it while one of its own definitions ran. */
  ghost predicate Takes(plan: Plan, turn: Turn, known: Pairs, revision: nat) {
    var looked := Looked(plan, turn.standings, revision);
    && Stays(turn.standings, known)
    && JobOf(turn.job, looked.definitions, looked.workspaces, Candidates(turn.standings), revision)
    && (turn.ending.ByBound() ==> exists d :: d in turn.job.definitions && d.id == turn.ending.runningId)
  }

  ghost predicate TakesEach(plan: Plan, turns: seq<Turn>, known: Pairs, revision: nat) {
    forall i :: 0 <= i < |turns| ==> Takes(After(plan, turns[..i], revision), turns[i], known, revision)
  }

  lemma {:induction false} StreaksKeepHolds(definitions: Marks, job: PlannedJob, n: nat, except_: Option<JobDefinition>)
    requires n <= |job.definitions|
    ensures var ended := StreaksEnded(definitions, job, n, except_);
            && ended.Keys == definitions.Keys
            && forall d :: d in ended ==> ended[d] == definitions[d].(endedRunning := ended[d].endedRunning)
  {
    if n > 0 { StreaksKeepHolds(definitions, job, n - 1, except_); }
  }

  lemma {:induction false} HeldMarksHold(
      definitions: Marks, job: PlannedJob, n: nat, revision: nat, left: map<string, string>)
    requires n <= |job.definitions|
    ensures var held := HeldMarks(definitions, job, n, revision, left);
            && (forall i :: 0 <= i < n ==> var d := job.definitions[i].digest; d in held && held[d].heldAt == Some(revision))
            && (forall d :: d in definitions && definitions[d].heldAt == Some(revision) ==>
                  d in held && held[d].heldAt == Some(revision))
  {
    if n > 0 { HeldMarksHold(definitions, job, n - 1, revision, left); }
  }

  /** The plan after frees nothing the plan before held. */
  ghost predicate FreesNone(before: Plan, after: Plan, revision: nat) {
    forall d, w :: Free(after, d, w, revision) ==> Free(before, d, w, revision)
  }

  lemma WaitedHolds(plan: Plan, job: PlannedJob, revision: nat, reason: string)
    ensures FreesNone(plan, Waited(plan, job, revision, reason), revision)
    ensures forall d :: !Free(Waited(plan, job, revision, reason), d, job.workspacePath, revision)
  {
    StreaksKeepHolds(plan.definitions, job, |job.definitions|, None);
  }

  lemma RanHolds(plan: Plan, job: PlannedJob, revision: nat, left: map<string, string>)
    ensures var after := plan.(definitions := HeldMarks(plan.definitions, job, |job.definitions|, revision, left));
            && FreesNone(plan, after, revision)
            && forall d :: d in job.definitions ==> !Free(after, d.digest, job.workspacePath, revision)
  {
    HeldMarksHold(plan.definitions, job, |job.definitions|, revision, left);
  }

  lemma BoundHolds(plan: Plan, job: PlannedJob, revision: nat, runningId: string)
    requires exists d :: d in job.definitions && d.id == runningId
    ensures var after := plan.(definitions := BoundMarks(plan.definitions, job, revision, runningId));
            && FreesNone(plan, after, revision)
            && exists d :: d in job.definitions && !Free(after, d.digest, job.workspacePath, revision)
  {
    StreaksKeepHolds(plan.definitions, job, |job.definitions|, None);
    assert Find(job.definitions, Some(runningId)).Some?;
  }

  /** No ending at the revision frees anything, and each holds its workspace or one of its job's definitions. */
  lemma EndingHolds(plan: Plan, job: PlannedJob, ending: Ending, revision: nat)
    requires job.definitions != []
    requires ending.ByBound() ==> exists d :: d in job.definitions && d.id == ending.runningId
    ensures var after := Ended(plan, job, ending, revision);
            && FreesNone(plan, after, revision)
            && exists d :: d in job.definitions && !Free(after, d.digest, job.workspacePath, revision)
  {
    hide Free, Waited, HeldMarks, BoundMarks;
    assert job.definitions[0] in job.definitions;
    match ending
    case Waits(reason) => WaitedHolds(plan, job, revision, reason);
    case RanToEnd(left) => RanHolds(plan, job, revision, left);
    case Bound(runningId) => BoundHolds(plan, job, revision, runningId);
    case RanUnstored(left, reason) =>
      WaitedHolds(plan, job, revision, reason);
      RanHolds(Waited(plan, job, revision, reason), job, revision, left);
    case BoundUnstored(runningId, reason) =>
      BoundHolds(plan, job, revision, runningId);
      WaitedHolds(
        plan.(definitions := BoundMarks(plan.definitions, job, revision, runningId)), job, revision, reason);
  }

  lemma LookKeeps(plan: Plan, standings: seq<Standing>, known: Pairs, revision: nat)
    requires Stays(standings, known)
    ensures FreePairs(Looked(plan, standings, revision), known, revision) == FreePairs(plan, known, revision)
  {
    hide Candidates;
    forall p | p in known
      ensures Free(Looked(plan, standings, revision), p.0, p.1, revision) <==> Free(plan, p.0, p.1, revision)
    {
      var s :| s in standings && s.digest == Some(p.0);
    }
  }

  /** Each job strictly shrinks what may be taken at its revision, however it ends. */
  lemma TurnShrinks(plan: Plan, turn: Turn, known: Pairs, revision: nat)
    requires Takes(plan, turn, known, revision)
    ensures FreePairs(AfterTurn(plan, turn, revision), known, revision) < FreePairs(plan, known, revision)
  {
    var looked := Looked(plan, turn.standings, revision);
    LookKeeps(plan, turn.standings, known, revision);
    EndingHolds(looked, turn.job, turn.ending, revision);
    var after := AfterTurn(plan, turn, revision);
    hide Ended;
    var d :| d in turn.job.definitions && !Free(after, d.digest, turn.job.workspacePath, revision);
    var c :| c in Candidates(turn.standings) && c.definition == d && c.workspacePath == turn.job.workspacePath
             && MayTake(looked.definitions, looked.workspaces, c, revision);
    hide Candidates;
    var pair := (d.digest, turn.job.workspacePath);
    assert pair in FreePairs(looked, known, revision) && pair !in FreePairs(after, known, revision);
  }

  lemma SmallerSet<T>(a: set<T>, b: set<T>)
    requires a < b
    ensures |a| < |b|
  {
    assert a + (b - a) == b && b - a != {};
  }

  /**
   * At one input revision the looks come to an end: while the known definitions stay in the standings, no more jobs
   * are taken than definitions may be, whatever order they are taken in and however each job ends.
   */
  lemma {:induction false} LooksEnd(plan: Plan, turns: seq<Turn>, known: Pairs, revision: nat)
    requires TakesEach(plan, turns, known, revision)
    ensures |turns| + |FreePairs(After(plan, turns, revision), known, revision)| <= |FreePairs(plan, known, revision)|
  {
    if turns != [] {
      var before, last := turns[..|turns| - 1], turns[|turns| - 1];
      TakesBefore(plan, turns, known, revision);
      LooksEnd(plan, before, known, revision);
      TurnShrinks(After(plan, before, revision), last, known, revision);
      SmallerSet(FreePairs(After(plan, turns, revision), known, revision),
                 FreePairs(After(plan, before, revision), known, revision));
    }
  }

  lemma TakesBefore(plan: Plan, turns: seq<Turn>, known: Pairs, revision: nat)
    requires TakesEach(plan, turns, known, revision) && turns != []
    ensures TakesEach(plan, turns[..|turns| - 1], known, revision)
    ensures Takes(After(plan, turns[..|turns| - 1], revision), turns[|turns| - 1], known, revision)
  {
    hide After, Takes;
    var before := turns[..|turns| - 1];
    forall i | 0 <= i < |before|
      ensures Takes(After(plan, before[..i], revision), before[i], known, revision)
    {
      assert before[..i] == turns[..i];
    }
  }

  ghost predicate HeldAt(plan: Plan, digest: string, revision: nat) {
    digest in plan.definitions && plan.definitions[digest].heldAt == Some(revision)
  }

  /** A look forgets no digest its standings hold, so it keeps a hold at its revision. */
  lemma LookHolds(plan: Plan, standings: seq<Standing>, known: Pairs, revision: nat, digest: string)
    requires Stays(standings, known) && HeldAt(plan, digest, revision) && exists p :: p in known && p.0 == digest
    ensures HeldAt(Looked(plan, standings, revision), digest, revision)
  {
    hide Candidates;
    var p :| p in known && p.0 == digest;
    var s :| s in standings && s.digest == Some(p.0);
  }

  lemma EndingKeepsHold(plan: Plan, job: PlannedJob, ending: Ending, revision: nat, digest: string)
    requires HeldAt(plan, digest, revision)
    ensures HeldAt(Ended(plan, job, ending, revision), digest, revision)
  {
    StreaksKeepHolds(plan.definitions, job, |job.definitions|, None);
    match ending
    case RanToEnd(left) => HeldMarksHold(plan.definitions, job, |job.definitions|, revision, left);
    case RanUnstored(left, reason) =>
      HeldMarksHold(Waited(plan, job, revision, reason).definitions, job, |job.definitions|, revision, left);
    case BoundUnstored(runningId, _) =>
      StreaksKeepHolds(BoundMarks(plan.definitions, job, revision, runningId), job, |job.definitions|, None);
    case _ =>
  }

  /** A job that ran to its end holds each of its definitions, stored or not. */
  lemma RanHoldsEach(plan: Plan, job: PlannedJob, ending: Ending, revision: nat, definition: JobDefinition)
    requires ending.ToEnd() && definition in job.definitions
    ensures HeldAt(Ended(plan, job, ending, revision), definition.digest, revision)
  {
    var from := if ending.RanToEnd? then plan else Waited(plan, job, revision, ending.reason);
    HeldMarksHold(from.definitions, job, |job.definitions|, revision, ending.left);
    hide Waited;
  }

  lemma {:induction false} HeldStays(plan: Plan, turns: seq<Turn>, known: Pairs, revision: nat, digest: string)
    requires TakesEach(plan, turns, known, revision) && HeldAt(plan, digest, revision)
    requires exists p :: p in known && p.0 == digest
    ensures HeldAt(After(plan, turns, revision), digest, revision)
  {
    if turns != [] {
      var before, last := turns[..|turns| - 1], turns[|turns| - 1];
      TakesBefore(plan, turns, known, revision);
      HeldStays(plan, before, known, revision, digest);
      var was := After(plan, before, revision);
      assert After(plan, turns, revision) == AfterTurn(was, last, revision);
      hide HeldAt, After, Looked, Ended, Candidates;
      LookHolds(was, last.standings, known, revision, digest);
      EndingKeepsHold(Looked(was, last.standings, revision), last.job, last.ending, revision, digest);
    }
  }

  /**
   * No definition of a job that ran to its end is offered again at its revision, while its digest stays in the
   * standings.
   */
  lemma RanIsNeverOfferedAgain(plan: Plan, ran: Turn, turns: seq<Turn>, next: Turn, known: Pairs, revision: nat)
    requires ran.ending.ToEnd() && Takes(plan, ran, known, revision)
    requires TakesEach(AfterTurn(plan, ran, revision), turns, known, revision)
    requires Takes(After(AfterTurn(plan, ran, revision), turns, revision), next, known, revision)
    ensures forall d, e :: d in ran.job.definitions && e in next.job.definitions ==> d.digest != e.digest
  {
    var plan' := AfterTurn(plan, ran, revision);
    var looked := Looked(plan, ran.standings, revision);
    forall d, e | d in ran.job.definitions && e in next.job.definitions
      ensures d.digest != e.digest
    {
      var c :| c in Candidates(ran.standings) && c.definition == d && c.workspacePath == ran.job.workspacePath
               && MayTake(looked.definitions, looked.workspaces, c, revision);
      assert (c.definition.digest, c.workspacePath) in known;
      RanHoldsEach(looked, ran.job, ran.ending, revision, d);
      HeldStays(plan', turns, known, revision, d.digest);
      NotOffered(After(plan', turns, revision), next, known, revision, d.digest, e);
    }
  }

  lemma NotOffered(plan: Plan, next: Turn, known: Pairs, revision: nat, digest: string, e: JobDefinition)
    requires Takes(plan, next, known, revision) && HeldAt(plan, digest, revision) && e in next.job.definitions
    requires exists p :: p in known && p.0 == digest
    ensures e.digest != digest
  {
    var p :| p in known && p.0 == digest;
    var s :| s in next.standings && s.digest == Some(digest);
    hide Candidates;
    assert HeldAt(Looked(plan, next.standings, revision), digest, revision);
  }

  /**
   * An input change makes only the running definition wait, and only when the last job that held it was ended by a
   * change while it ran too; of the job's definitions only that one's streak goes on.
   */
  lemma ChangeLeavesOnlyTheRunning(definitions: Marks, job: PlannedJob, revisionNow: nat, runningId: Option<string>)
    ensures var after := ChangeMarks(definitions, job, revisionNow, runningId);
            var running := Find(job.definitions, runningId);
            && (forall d :: d in after && (d !in definitions || after[d].heldAt != definitions[d].heldAt
                                           || after[d].takenLast != definitions[d].takenLast) ==>
                  && running.Some? && d == running.value.digest
                  && (d in definitions ==> definitions[d].endedRunning)
                  && (d !in definitions ==> after[d].heldAt.None? && !after[d].takenLast))
            && (running.Some? && running.value.digest in definitions && definitions[running.value.digest].endedRunning ==>
                  after[running.value.digest].heldAt == Some(revisionNow) && after[running.value.digest].takenLast)
            && forall d :: d in job.definitions && d.digest in after && after[d.digest].endedRunning ==>
                 running.Some? && d.digest == running.value.digest
  {
    var running := Find(job.definitions, runningId);
    StreaksKeepHolds(definitions, job, |job.definitions|, running);
    StreaksEnd(definitions, job, |job.definitions|, running);
  }

  lemma {:induction false} StreaksEnd(definitions: Marks, job: PlannedJob, n: nat, except_: Option<JobDefinition>)
    requires n <= |job.definitions|
    ensures var ended := StreaksEnded(definitions, job, n, except_);
            forall i :: 0 <= i < n && job.definitions[i].digest in ended && ended[job.definitions[i].digest].endedRunning ==>
              Some(job.definitions[i]) == except_
  {
    if n > 0 {
      StreaksEnd(definitions, job, n - 1, except_);
      StreaksKeepHolds(definitions, job, n - 1, except_);
    }
  }
}
