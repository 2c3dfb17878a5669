/** What the daemon stores of a falsification job that ended, and what it leaves waiting. */
module Falsifications {
  import opened Options
  import V = Verdicts
  import R = RunRecords
  import J = FalsificationJobs
  import T = FalsificationRunTraces
  import P = FalsificationPlans
  import Turns = PlanTurns

  datatype Asked = ForChange | ForBound

  /** A job sent to its executor; `asked` is what it was first asked to end for, when the abort found it in progress. */
  datatype SentJob = SentJob(job: P.PlannedJob, revision: nat, fingerprintDigest: string, asked: Option<Asked>)

  datatype Judged = Judged(defectId: string, judgement: V.Judgement)

  datatype Reply = DidNotRun(reason: string) | Replied(runs: R.JobRuns, judgements: seq<Judged>)

  /** What the tracker says of the job's window; it vouches that no input changed when fingerprinted. */
  datatype Window = Window(fingerprinted: bool, reason: string)

  datatype EndedBy = Stop | Change | Bound | Returned

  /**
   * One write of evidence: the reply's verdicts, bound to the fingerprint and the definition digests read at the
   * start.
   */
  datatype Write = Write(fingerprintDigest: string, verdicts: seq<Judged>, digests: map<string, string>)

  /** How a job that ended is settled: the stop, the input revision then, its window, and the store's failure if any. */
  datatype Moment = Moment(stopped: bool, revisionNow: nat, window: Window, storeFailure: Option<string>)

  const BOUND_ENDED := "the time bound of 10 minutes ended its job"

  function EndedByOf(sent: SentJob, reply: Reply, moment: Moment): EndedBy {
    var unasked := if moment.revisionNow == sent.revision then Returned else Change;
    if moment.stopped then Stop
    else if reply.Replied? && !reply.runs.interrupted then unasked
    else
      match sent.asked
      case None => unasked
      case Some(ForChange) => Change
      case Some(ForBound) => Bound
  }

  function ReasonText(why: V.NoVerdictReason): string {
    match why
    case JobInterrupted => "interrupted"
    case MutationFileUnreadable => "mutation-file-unreadable"
    case AnchorNotOnce(_) => "anchor-count"
    case BaselineUnrecorded => "baseline-unrecorded"
    case FirstRunUnrecorded => "run-unrecorded"
    case ConfirmingRunUnrecorded => "confirming-run-unrecorded"
    case RestoredBaselineUnrecorded => "restored-baseline-unrecorded"
  }

  /** By defect id, the judge's reason for each experiment it gave no verdict. */
  function WithoutVerdict(judgements: seq<Judged>): map<string, string> {
    if judgements == [] then map[]
    else
      var before, last := WithoutVerdict(judgements[..|judgements| - 1]), judgements[|judgements| - 1];
      if last.judgement.NoVerdict? then before[last.defectId := ReasonText(last.judgement.why)] else before
  }

  function VerdictsOf(judgements: seq<Judged>): (verdicts: seq<Judged>)
    ensures forall j :: j in verdicts <==> j in judgements && !j.judgement.NoVerdict?
  {
    if judgements == [] then []
    else (if judgements[0].judgement.NoVerdict? then [] else [judgements[0]]) + VerdictsOf(judgements[1..])
  }

  /** Why the workspace waits after an attempt to store the reply, if it does. */
  function StoreTrouble(sent: SentJob, judgements: seq<Judged>, moment: Moment): Option<string> {
    if !moment.window.fingerprinted then
      if moment.revisionNow == sent.revision
      then Some("nothing of its job was stored, since " + moment.window.reason) else None
    else if VerdictsOf(judgements) == [] || moment.storeFailure.None? then None
    else Some("the verdicts of its job could not be stored: " + moment.storeFailure.value)
  }

  function DigestsOf(definitions: seq<P.JobDefinition>): map<string, string> {
    if definitions == [] then map[]
    else
      var last := definitions[|definitions| - 1];
      DigestsOf(definitions[..|definitions| - 1])[last.id := last.digest]
  }

  function WritesOf(sent: SentJob, judgements: seq<Judged>, moment: Moment): seq<Write> {
    if moment.window.fingerprinted && VerdictsOf(judgements) != [] && moment.storeFailure.None?
    then [Write(sent.fingerprintDigest, VerdictsOf(judgements), DigestsOf(sent.job.definitions))] else []
  }

  function BoundReason(reply: Reply): string {
    if reply.DidNotRun? then BOUND_ENDED + ": " + reply.reason else BOUND_ENDED + " in a baseline"
  }

  function RunningOf(reply: Reply): Option<string> {
    if reply.DidNotRun? then None else T.RunningDefinition(reply.runs)
  }

  /** The plan once the workspace waits for this reason, if there is one. */
  function WaitedFor(plan: P.Plan, sent: SentJob, trouble: Option<string>): P.Plan {
    if trouble.None? then plan else P.Waited(plan, sent.job, sent.revision, trouble.value)
  }

  function AfterBound(plan: P.Plan, sent: SentJob, reply: Reply, moment: Moment): P.Plan {
    var running := RunningOf(reply);
    if running.None? then P.Waited(plan, sent.job, sent.revision, BoundReason(reply))
    else
      WaitedFor(
        plan.(definitions := P.BoundMarks(plan.definitions, sent.job, sent.revision, running.value)),
        sent, StoreTrouble(sent, reply.judgements, moment))
  }

  function AfterReturn(plan: P.Plan, sent: SentJob, reply: Reply, moment: Moment): P.Plan {
    if reply.DidNotRun? then P.Waited(plan, sent.job, sent.revision, "its job did not run: " + reply.reason)
    else
      var waited := WaitedFor(plan, sent, StoreTrouble(sent, reply.judgements, moment));
      waited.(definitions := P.HeldMarks(
        waited.definitions, sent.job, |sent.job.definitions|, sent.revision, WithoutVerdict(reply.judgements)))
  }

  /** The plan once the job is settled. */
  function Settled(plan: P.Plan, sent: SentJob, reply: Reply, moment: Moment): P.Plan {
    match EndedByOf(sent, reply, moment)
    case Stop => plan
    case Change =>
      plan.(definitions := P.ChangeMarks(plan.definitions, sent.job, moment.revisionNow, RunningOf(reply)))
    case Bound => AfterBound(plan, sent, reply, moment)
    case Returned => AfterReturn(plan, sent, reply, moment)
  }

  /** The job's ending is one that stores what its reply judged. */
  predicate Stores(sent: SentJob, reply: Reply, moment: Moment) {
    match EndedByOf(sent, reply, moment)
    case Stop => false
    case Change => false
    case Bound => RunningOf(reply).Some?
    case Returned => reply.Replied?
  }

  /** A job that ended, its reply, and the moment it was settled at. */
  datatype Origin = Origin(sent: SentJob, reply: Reply, moment: Moment)

  /** What settling the job wrote. */
  ghost function WrittenBy(from: Origin): seq<Write> {
    if Stores(from.sent, from.reply, from.moment)
    then WritesOf(from.sent, from.reply.judgements, from.moment) else []
  }

  class Falsification {
    const plan: P.FalsificationPlan
    var written: seq<Write>
    /** The job each write came from. */
    ghost var origins: seq<Origin>

    ghost predicate Valid()
      reads this
    {
      |origins| == |written| && forall i :: 0 <= i < |written| ==> WrittenBy(origins[i]) == [written[i]]
    }

    constructor (maxJobDefinitions: nat)
      requires maxJobDefinitions > 0
      ensures Valid() && fresh(plan) && Planned() == P.Plan(map[], map[]) && written == []
    {
      plan := new P.FalsificationPlan(maxJobDefinitions);
      written, origins := [], [];
    }

    ghost function Planned(): P.Plan
      reads plan
    {
      P.Plan(plan.definitions, plan.workspaces)
    }

    /**
     * Stores and marks by what ended the job: a stop does neither, an input change marks and stores nothing, and
     * evidence is written only for a window that vouches that no input changed.
     */
    method Settle(sent: SentJob, reply: Reply, moment: Moment)
      requires Valid()
      modifies this`written, this`origins, plan
      ensures Valid()
      ensures Planned() == Settled(old(Planned()), sent, reply, moment)
      ensures written == old(written)
                         + if Stores(sent, reply, moment) then WritesOf(sent, reply.judgements, moment) else []
      ensures origins == old(origins)
                         + if written == old(written) then [] else [Origin(sent, reply, moment)]
    {
      hide P.ChangeMarks, P.BoundMarks, P.HeldMarks, P.Waited, P.StreaksEnded, T.RunningDefinition;
      var ending := EndedByOf(sent, reply, moment);
      match ending {
        case Stop =>
        case Change => plan.EndedByChange(sent.job, moment.revisionNow, RunningOf(reply));
        case Bound =>
          var running := RunningOf(reply);
          if running.None? {
            plan.WorkspaceWaits(sent.job, sent.revision, BoundReason(reply));
          } else {
            plan.EndedByBound(sent.job, sent.revision, running.value);
            Store(sent, reply.judgements, moment);
          }
        case Returned =>
          if reply.DidNotRun? {
            plan.WorkspaceWaits(sent.job, sent.revision, "its job did not run: " + reply.reason);
          } else {
            Store(sent, reply.judgements, moment);
            plan.RanToEnd(sent.job, sent.revision, WithoutVerdict(reply.judgements));
          }
      }
      WritesAtMostOne(sent, reply, moment);
      if written != old(written) {
        origins := origins + [Origin(sent, reply, moment)];
      }
    }

    method Store(sent: SentJob, judgements: seq<Judged>, moment: Moment)
      modifies this`written, plan
      ensures Planned() == WaitedFor(old(Planned()), sent, StoreTrouble(sent, judgements, moment))
      ensures written == old(written) + WritesOf(sent, judgements, moment)
    {
      hide P.Waited;
      if !moment.window.fingerprinted {
        if moment.revisionNow == sent.revision {
          plan.WorkspaceWaits(
            sent.job, sent.revision, "nothing of its job was stored, since " + moment.window.reason);
        }
        return;
      }
      var verdicts := VerdictsOf(judgements);
      if verdicts == [] { return; }
      if moment.storeFailure.Some? {
        plan.WorkspaceWaits(
          sent.job, sent.revision, "the verdicts of its job could not be stored: " + moment.storeFailure.value);
        return;
      }
      written := written + [Write(sent.fingerprintDigest, verdicts, DigestsOf(sent.job.definitions))];
    }
  }

  lemma WritesAtMostOne(sent: SentJob, reply: Reply, moment: Moment)
    ensures |WrittenBy(Origin(sent, reply, moment))| <= 1
  {
  }

  /** The job ran the experiments of the definitions sent, one for one and in order, and judged each. */
  ghost predicate Serves(sent: SentJob, inputs: J.Job, reply: Reply, log: seq<J.Entry>, end: R.JobEnd)
    requires inputs.Valid() && reply.Replied?
  {
    && |inputs.experiments| == |sent.job.definitions|
    && (forall i :: 0 <= i < |inputs.experiments| ==> inputs.experiments[i].defectId == sent.job.definitions[i].id)
    && J.Explains(inputs, reply.runs, log)
    && |reply.runs.experiments| == |inputs.experiments| == |reply.judgements|
    && forall i :: 0 <= i < |inputs.experiments| ==> JudgesOne(inputs, reply, end, i)
  }

  ghost predicate JudgesOne(inputs: J.Job, reply: Reply, end: R.JobEnd, i: nat)
    requires inputs.Valid() && reply.Replied?
    requires i < |reply.runs.experiments| == |inputs.experiments| == |reply.judgements|
  {
    reply.judgements[i] == Judged(
      inputs.experiments[i].defectId,
      V.Judge(R.FactsAt(reply.runs, end, i, inputs.experiments[i].test, inputs.assertionErrors)))
  }

  /** The definition an abort's ending leaves is one of the job's own. */
  lemma RunningIsOfJob(sent: SentJob, inputs: J.Job, reply: Reply, log: seq<J.Entry>, end: R.JobEnd)
    requires inputs.Valid() && reply.Replied? && Serves(sent, inputs, reply, log, end)
    ensures RunningOf(reply).Some? ==> exists d :: d in sent.job.definitions && Some(d.id) == RunningOf(reply)
  {
    T.RunningIsTheInterrupted(inputs, reply.runs, log);
    hide T.RunningDefinition, J.Explains, J.Stopped, JudgesOne;
    if RunningOf(reply).Some? {
      var i := log[|log| - 1].which.index;
      assert sent.job.definitions[i] in sent.job.definitions;
    }
  }

  /** A job ended by its time bound stores no verdict of an experiment that ran. */
  lemma BoundStoresNoRun(
      sent: SentJob, inputs: J.Job, reply: Reply, log: seq<J.Entry>, end: R.JobEnd, moment: Moment, i: nat)
    requires inputs.Valid() && reply.Replied? && Serves(sent, inputs, reply, log, end)
    requires EndedByOf(sent, reply, moment) == Bound && i < |reply.judgements|
    requires !reply.judgements[i].judgement.NoVerdict?
    ensures reply.runs.experiments[i].NotRunRecord?
  {
    assert JudgesOne(inputs, reply, end, i);
    T.NoVerdictWhenInterrupted(inputs, reply.runs, log, end, i);
    hide V.Judge, R.FactsAt, J.Explains;
  }

  /** The job's runs detect the defect of its experiment `i`. */
  ghost predicate RunsDetect(inputs: J.Job, log: seq<J.Entry>, end: R.JobEnd, i: nat)
    requires i < |inputs.experiments|
  {
    var test := inputs.experiments[i].test;
    && log != [] && T.CleanRun(log[0], J.Baseline, test) && T.CleanRun(log[|log| - 1], J.Restored, test)
    && (exists p :: T.RejectedAt(inputs, log, p, i))
    && end == R.JobEnd(0, true)
  }

  lemma JudgesByRuns(sent: SentJob, inputs: J.Job, reply: Reply, log: seq<J.Entry>, end: R.JobEnd, i: nat)
    requires inputs.Valid() && reply.Replied? && Serves(sent, inputs, reply, log, end) && i < |inputs.experiments|
    ensures reply.judgements[i].defectId == sent.job.definitions[i].id
    ensures reply.judgements[i].judgement == V.Detected <==> RunsDetect(inputs, log, end, i)
    ensures RunsDetect(inputs, log, end, i) ==> !reply.runs.interrupted
  {
    T.DetectedByRuns(inputs, reply.runs, log, end, i);
    T.DetectsByRecord(inputs, reply.runs, end, i);
    assert JudgesOne(inputs, reply, end, i);
    if reply.runs.interrupted { T.NoVerdictWhenInterrupted(inputs, reply.runs, log, end, i); }
    hide V.Judge, R.FactsAt, J.Explains, T.CleanRun, T.RejectedAt;
  }

  /**
   * Every verdict of detection that is stored was detected by the runs of the job it came from, over a window that
   * vouches that no input changed, at the revision the job was sent at and not stopped; and such a write holds every
   * detection of its job's runs.
   */
  lemma StoredDetections(
      write: Write, from: Origin, inputs: J.Job, log: seq<J.Entry>, end: R.JobEnd, defectId: string)
    requires WrittenBy(from) == [write] && inputs.Valid() && from.reply.Replied?
    requires Serves(from.sent, inputs, from.reply, log, end)
    ensures Judged(defectId, V.Detected) in write.verdicts <==>
            exists i :: 0 <= i < |inputs.experiments| && from.sent.job.definitions[i].id == defectId
                        && RunsDetect(inputs, log, end, i)
    ensures write.fingerprintDigest == from.sent.fingerprintDigest && from.moment.window.fingerprinted
    ensures Judged(defectId, V.Detected) in write.verdicts ==>
              !from.moment.stopped && from.moment.revisionNow == from.sent.revision
  {
    var sent, reply := from.sent, from.reply;
    assert write.verdicts == VerdictsOf(reply.judgements);
    assert |reply.judgements| == |inputs.experiments|;
    hide Serves, RunsDetect, VerdictsOf, RunningOf;
    forall i | 0 <= i < |inputs.experiments|
      ensures reply.judgements[i].defectId == sent.job.definitions[i].id
      ensures reply.judgements[i].judgement == V.Detected <==> RunsDetect(inputs, log, end, i)
      ensures RunsDetect(inputs, log, end, i) ==> !reply.runs.interrupted
    {
      JudgesByRuns(sent, inputs, reply, log, end, i);
    }
    if Judged(defectId, V.Detected) in write.verdicts {
      var i :| 0 <= i < |reply.judgements| && reply.judgements[i] == Judged(defectId, V.Detected);
    }
  }

  /** How a job settled at its own revision, not stopped, is left. */
  function EndingOf(sent: SentJob, reply: Reply, moment: Moment): Turns.Ending {
    if reply.DidNotRun? then
      Turns.Waits(if EndedByOf(sent, reply, moment) == Bound then BoundReason(reply)
                  else "its job did not run: " + reply.reason)
    else
      var trouble := StoreTrouble(sent, reply.judgements, moment);
      if EndedByOf(sent, reply, moment) == Bound then
        var running := RunningOf(reply);
        if running.None? then Turns.Waits(BoundReason(reply))
        else if trouble.None? then Turns.Ending.Bound(running.value)
        else Turns.BoundUnstored(running.value, trouble.value)
      else
        var left := WithoutVerdict(reply.judgements);
        if trouble.None? then Turns.RanToEnd(left) else Turns.RanUnstored(left, trouble.value)
  }

  /** At an unmoved revision nothing asked the job to end for a change, and no stop ended it. */
  predicate Unmoved(sent: SentJob, moment: Moment) {
    !moment.stopped && moment.revisionNow == sent.revision && sent.asked != Some(ForChange)
  }

  lemma SettledEnds(plan: P.Plan, sent: SentJob, reply: Reply, moment: Moment)
    requires Unmoved(sent, moment)
    ensures Settled(plan, sent, reply, moment) ==
            Turns.Ended(plan, sent.job, EndingOf(sent, reply, moment), sent.revision)
    ensures EndingOf(sent, reply, moment).ByBound() ==>
              Some(EndingOf(sent, reply, moment).runningId) == RunningOf(reply) && reply.Replied?
  {
    hide P.Waited, P.HeldMarks, P.BoundMarks, T.RunningDefinition, StoreTrouble, WithoutVerdict;
  }

  /**
   * Settling a job at its own revision strictly shrinks what may be taken there, however the job ended, whatever its
   * reply holds and whether or not anything was stored; so the looks at one revision come to an end.
   */
  lemma SettleShrinks(
      plan: P.Plan, standings: seq<P.Standing>, known: Turns.Pairs, sent: SentJob, reply: Reply, moment: Moment,
      inputs: J.Job, log: seq<J.Entry>, end: R.JobEnd)
    requires Unmoved(sent, moment) && Turns.Stays(standings, known)
    requires var looked := Turns.Looked(plan, standings, sent.revision);
             P.JobOf(sent.job, looked.definitions, looked.workspaces, P.Candidates(standings), sent.revision)
    requires reply.Replied? ==> inputs.Valid() && Serves(sent, inputs, reply, log, end)
    ensures Turns.FreePairs(Settled(Turns.Looked(plan, standings, sent.revision), sent, reply, moment), known, sent.revision)
            < Turns.FreePairs(plan, known, sent.revision)
  {
    var ending := EndingOf(sent, reply, moment);
    SettledEnds(Turns.Looked(plan, standings, sent.revision), sent, reply, moment);
    if reply.Replied? { RunningIsOfJob(sent, inputs, reply, log, end); }
    var turn := Turns.Turn(standings, sent.job, ending);
    hide Settled, EndingOf, Serves, RunningOf, Turns.Stays, Turns.FreePairs, Turns.Ended, Turns.Looked, P.JobOf;
    assert Turns.Takes(plan, turn, known, sent.revision);
    Turns.TurnShrinks(plan, turn, known, sent.revision);
  }
}
