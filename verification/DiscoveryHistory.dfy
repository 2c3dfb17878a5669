/** The last discovery begun: when another is due, when one is owed once more, and what holds it. */
module DiscoveryHistories {
  import opened Options
  import opened SubjectChanges
  import opened ChangeRecords
  import opened RunHistories

  /** How long an end check may miss a change of a file's modification time. */
  const MODIFIED_TIME_RESOLUTION_MS := 2_000

  datatype DiscoveryAttempt = DiscoveryAttempt(
    revision: nat, stored: bool, onceMoreFrom: Option<int>, startCount: Count)

  /** The discovery in effect as a plan reads it. */
  datatype InEffect = InEffect(current: bool, fingerprinted: bool)

  datatype DiscoverReport = DiscoverReport(stored: bool, changedWhileRunning: bool, window: Window)

  /** What the history holds. */
  datatype Discoveries = Discoveries(
    attempt: Option<DiscoveryAttempt>, retry: bool, decided: Count, held: Option<JobsByPath>,
    latestHold: Option<JobsByPath>)
  {
    /** A held discovery owes no retry, and is held by its latest hold, of some path. */
    predicate Valid() {
      held.Some? ==> !retry && held == latestHold && held.value != map[]
    }
  }

  const NO_DISCOVERIES := Discoveries(None, false, NO_COUNT, None, None)

  datatype BegunDiscovery = BegunDiscovery(
    revision: nat, isOnceMore: bool, startCount: Count, before: Option<DiscoveryAttempt>, retry: bool)

  /** No record reads as an edit, as does a change that reaches every input. */
  predicate Unedited(changes: Option<Sets>) {
    changes.Some? && !changes.value.everywhere && changes.value.edits == {}
  }

  predicate Releases(inEffect: Option<InEffect>, changes: Option<Sets>) {
    inEffect.None? || !Unedited(changes)
  }

  function NextDiscoveryCount(attempt: Option<DiscoveryAttempt>, inEffect: InEffect, changes: Option<Sets>): Count {
    if attempt.None? || !attempt.value.stored || !inEffect.fingerprinted then NO_COUNT
    else if !Unedited(changes) || changes.value.byJobs == map[] then NO_COUNT
    else FollowOn(attempt.value.startCount, changes.value.byJobs)
  }

  function CountOf(d: Discoveries, inEffect: Option<InEffect>, changes: Option<Sets>): Count {
    if inEffect.None? || inEffect.value.current then NO_COUNT
    else NextDiscoveryCount(d.attempt, inEffect.value, changes)
  }

  /** The paths a count holds the discovery by, if it does. */
  function HoldBy(count: Count, latestHold: Option<JobsByPath>): Option<JobsByPath> {
    if count.count >= SELF_CHANGE_HOLD_COUNT then Some(count.shared)
    else if count.count != 1 || latestHold.None? then None
    else
      var again := SharedPaths(latestHold.value, count.shared);
      if again == map[] then None else Some(again)
  }

  function HeldBy(d: Discoveries, hold: Option<JobsByPath>): Discoveries {
    if hold.None? then d else d.(held := hold, latestHold := hold, retry := false)
  }

  function DecidedDiscovery(d: Discoveries, inEffect: Option<InEffect>, changes: Option<Sets>): Discoveries {
    if d.held.Some? && !Releases(inEffect, changes) then d
    else
      var count := CountOf(d, inEffect, changes);
      HeldBy(d.(held := None, decided := count), HoldBy(count, d.latestHold))
  }

  function Armed(d: Discoveries, listsFailed: bool): Discoveries {
    d.(retry := d.held.None? && ((d.attempt.Some? && !d.attempt.value.stored) || listsFailed))
  }

  function Until(time: int, now: int): nat {
    if time > now then time - now else 0
  }

  /** A change that moved the revision during the once-more wait starts the wait again from that change. */
  function RestartedWait(attempt: Option<DiscoveryAttempt>, changedAt: int, now: int): nat {
    if attempt.Some? && attempt.value.onceMoreFrom.Some? && changedAt < attempt.value.onceMoreFrom.value
    then Until(changedAt + MODIFIED_TIME_RESOLUTION_MS, now) else 0
  }

  /** How long before a discovery may begin at the revision; none when none is due. */
  function DueIn(d: Discoveries, revision: nat, inEffect: Option<InEffect>, changedAt: int, now: int): Option<nat> {
    var notCurrent := inEffect.None? || !inEffect.value.current;
    if d.held.Some? then None
    else if d.attempt.None? || d.attempt.value.revision != revision then
      if d.retry || notCurrent then Some(RestartedWait(d.attempt, changedAt, now)) else None
    else if d.attempt.value.onceMoreFrom.Some? && notCurrent then Some(Until(d.attempt.value.onceMoreFrom.value, now))
    else if d.retry then Some(0) else None
  }

  function BegunOf(d: Discoveries, revision: nat): BegunDiscovery {
    BegunDiscovery(
      revision,
      d.attempt.Some? && d.attempt.value.onceMoreFrom.Some? && d.attempt.value.revision == revision,
      d.decided, d.attempt, d.retry)
  }

  /** Begun, a discovery counts as having stored nothing until it reports. */
  function DiscoveryBegunAt(d: Discoveries, revision: nat): Discoveries {
    d.(attempt := Some(DiscoveryAttempt(revision, false, None, d.decided)), retry := false)
  }

  function DiscoveryEnded(
      d: Discoveries, begun: BegunDiscovery, report: DiscoverReport, revisionNow: nat, now: int): Discoveries
  {
    var unmoved := report.stored && report.changedWhileRunning && begun.revision == revisionNow;
    d.(attempt := Some(DiscoveryAttempt(
      begun.revision, report.stored,
      if unmoved && !begun.isOnceMore then Some(now + MODIFIED_TIME_RESOLUTION_MS) else None,
      begun.startCount)))
  }

  class DiscoveryHistory {
    var attempt: Option<DiscoveryAttempt>
    var retry: bool
    var decided: Count
    var held: Option<JobsByPath>
    var latestHold: Option<JobsByPath>
    const changes: ChangeRecord

    function View(): Discoveries
      reads this
    {
      Discoveries(attempt, retry, decided, held, latestHold)
    }

    /** The record is the run history's, which owns every job's part of it. */
    constructor (changes: ChangeRecord)
      ensures View() == NO_DISCOVERIES && this.changes == changes
    {
      attempt, retry, decided, held, latestHold := None, false, NO_COUNT, None, None;
      this.changes := changes;
    }

    /** Its own fields are no part of the record's. */
    lemma Apart()
      ensures forall s :: s in changes.Repr() ==> s as object != this
    {
    }

    /** Releases the hold when an edit came or none is in effect; while not held, counts, and holds at the bound. */
    method Decide(inEffect: Option<InEffect>)
      requires changes.Valid() && View().Valid()
      modifies this
      ensures View() == DecidedDiscovery(old(View()), inEffect, Get(changes.Views(), Discovery))
      ensures View().Valid()
    {
      hide ChangeRecord.Valid, ChangeRecord.Views;
      Apart();
      var subject := changes.Of(Discovery);
      DecideKeeps(View(), inEffect, subject);
      if held.Some? {
        if !Releases(inEffect, subject) { return; }
        held := None;
      }
      if inEffect.None? || inEffect.value.current {
        decided := NO_COUNT;
      } else {
        decided := NextDiscoveryCount(attempt, inEffect.value, subject);
      }
      HoldAt(decided);
    }

    method HoldAt(count: Count)
      requires held.None?
      modifies this`held, this`latestHold, this`retry
      ensures View() == HeldBy(old(View()), HoldBy(count, old(latestHold)))
    {
      if count.count >= SELF_CHANGE_HOLD_COUNT {
        Hold(count.shared);
        return;
      }
      if count.count != 1 || latestHold.None? { return; }
      var again := CollectShared(latestHold.value, count.shared);
      if |again| > 0 {
        Hold(again);
      }
    }

    method Hold(shared: JobsByPath)
      modifies this`held, this`latestHold, this`retry
      ensures View() == HeldBy(old(View()), Some(shared))
    {
      held, latestHold, retry := Some(shared), Some(shared), false;
    }

    method ArmRetry(listsFailed: bool) returns (armed: bool)
      requires View().Valid()
      modifies this`retry
      ensures View() == Armed(old(View()), listsFailed) && armed == View().retry && View().Valid()
    {
      retry := held.None? && ((attempt.Some? && !attempt.value.stored) || listsFailed);
      armed := retry;
    }

    method Began(revision: nat) returns (begun: BegunDiscovery)
      requires changes.Valid() && View().Valid()
      modifies this`attempt, this`retry, changes`running
      ensures changes.Valid() && changes.View() == Told(old(changes.View()), JobBegan(Discovery))
      ensures begun == BegunOf(old(View()), revision) && View() == DiscoveryBegunAt(old(View()), revision)
      ensures View().Valid()
    {
      hide ChangeRecord.Valid, ChangeRecord.View, Told;
      Apart();
      var isOnceMore := attempt.Some? && attempt.value.onceMoreFrom.Some? && attempt.value.revision == revision;
      begun := BegunDiscovery(revision, isOnceMore, decided, attempt, retry);
      retry := false;
      changes.JobBegan(Discovery);
      attempt := Some(DiscoveryAttempt(revision, false, None, begun.startCount));
    }

    method Ended(begun: BegunDiscovery, report: DiscoverReport, revisionNow: nat, now: int)
      requires changes.Valid() && View().Valid()
      modifies this`attempt, changes, changes.Repr()
      ensures changes.Valid() && fresh(changes.Repr() - old(changes.Repr()))
      ensures changes.View() == Told(old(changes.View()), JobEnded(Discovery, report.window))
      ensures View() == DiscoveryEnded(old(View()), begun, report, revisionNow, now) && View().Valid()
    {
      hide ChangeRecord.Valid, ChangeRecord.View, Told;
      Apart();
      changes.JobEnded(report.window, Discovery);
      Apart();
      var unmoved := report.stored && report.changedWhileRunning && begun.revision == revisionNow;
      var onceMoreFrom := if unmoved && !begun.isOnceMore then Some(now + MODIFIED_TIME_RESOLUTION_MS) else None;
      attempt := Some(DiscoveryAttempt(begun.revision, report.stored, onceMoreFrom, begun.startCount));
    }

    /** The discovery never began: the record stands as it was before it, a retry owed meanwhile kept. */
    method NotBegun(begun: BegunDiscovery)
      requires changes.Valid()
      modifies this`attempt, this`retry, changes`running
      ensures changes.Valid() && changes.View() == Told(old(changes.View()), JobNotBegun(Discovery))
      ensures View() == old(View()).(attempt := begun.before, retry := old(retry) || begun.retry)
    {
      hide ChangeRecord.Valid, ChangeRecord.View, Told;
      Apart();
      changes.JobNotBegun(Discovery);
      attempt := begun.before;
      retry := retry || begun.retry;
    }

    method Threw(begun: BegunDiscovery)
      requires changes.Valid()
      modifies changes
      ensures changes.Valid() && fresh(changes.Repr() - old(changes.Repr()))
      ensures changes.View() == Told(old(changes.View()), JobThrew(Discovery))
      ensures View() == old(View())
    {
      hide ChangeRecord.Valid, ChangeRecord.View, Told;
      Apart();
      changes.JobThrew(Discovery);
    }
  }

  lemma FollowOnShares(base: Count, caused: JobsByPath)
    requires caused != map[]
    ensures var count := FollowOn(base, caused);
            count.count > 0 && count.shared != map[] && count.shared.Keys <= caused.Keys
  {
  }

  /** A hold is always by some path. */
  lemma HoldsBySome(d: Discoveries, inEffect: Option<InEffect>, changes: Option<Sets>)
    ensures var hold := HoldBy(CountOf(d, inEffect, changes), d.latestHold);
            hold.Some? ==> hold.value != map[] && changes.Some? && hold.value.Keys <= changes.value.byJobs.Keys
  {
    if d.attempt.Some? && changes.Some? && changes.value.byJobs != map[] {
      FollowOnShares(d.attempt.value.startCount, changes.value.byJobs);
    }
    hide FollowOn;
  }

  lemma DecideKeeps(d: Discoveries, inEffect: Option<InEffect>, changes: Option<Sets>)
    requires d.Valid()
    ensures DecidedDiscovery(d, inEffect, changes).Valid()
  {
    HoldsBySome(d, inEffect, changes);
    hide HoldBy, CountOf, Releases;
  }

  /**
   * A plan newly holds the discovery only when, unedited, a discovery in effect that is not current follows a stored
   * one whose subject jobs changed since, each path it is held by among their changes; and a held one is never due.
   */
  lemma HoldsOnlyByJobs(
      d: Discoveries, inEffect: Option<InEffect>, changes: Option<Sets>, revision: nat, changedAt: int, now: int)
    requires d.Valid()
    ensures var after := DecidedDiscovery(d, inEffect, changes);
            && (after.held.Some? ==>
                  && inEffect.Some? && Unedited(changes) && DueIn(after, revision, inEffect, changedAt, now).None?
                  && (d.held.None? ==>
                        && !inEffect.value.current && inEffect.value.fingerprinted
                        && d.attempt.Some? && d.attempt.value.stored
                        && after.held.value.Keys <= changes.value.byJobs.Keys)
                  && (after.held.value.Keys <= changes.value.byJobs.Keys || after.held == d.held))
            && (d.held.Some? && after.held.None? ==> Releases(inEffect, changes))
  {
    HoldsBySome(d, inEffect, changes);
    NotHeldByNone(d.latestHold);
    hide HoldBy, FollowOn;
  }

  lemma NotHeldByNone(latestHold: Option<JobsByPath>)
    ensures HoldBy(NO_COUNT, latestHold).None?
  {
  }
}
