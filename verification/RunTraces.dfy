/** What the run history keeps of one workspace over every trace of its due times and runs. */
module RunTraces {
  import opened Options
  import opened SubjectChanges
  import opened RunHistories

  /**
   * A plan finds the workspace due over the changes recorded for it, or a run begins and ends with a report; a run that
   * threw or was refused ends with none.
   */
  datatype Event =
    | Due(due: DueFacts, changes: Option<Sets>)
    | Ran(revision: nat, modules: string, report: Option<Report>, revisionNow: nat)

  function AfterRun(w: Workspace, e: Event): Workspace
    requires e.Ran?
  {
    var begun := BegunRun("", e.revision, e.modules, IsRerun(w, e.revision, e.modules), StartCount(w), w.attempt);
    var after := Begun(w, e.revision, e.modules);
    if e.report.None? then after
    else after.(attempt := Some(EndedAttempt(begun, e.report.value, e.revisionNow)))
  }

  function Step(w: Workspace, e: Event): Workspace {
    if e.Due? then Decided(w, e.due, e.changes) else AfterRun(w, e)
  }

  ghost function After(trace: seq<Event>): Workspace {
    if trace == [] then UNKNOWN_WORKSPACE else Step(After(trace[..|trace| - 1]), trace[|trace| - 1])
  }

  /** The scheduler's discipline: a run begins straight after the plan that found its workspace due and not held. */
  ghost predicate Planned(trace: seq<Event>) {
    forall i :: 0 <= i < |trace| && trace[i].Ran? ==> i > 0 && trace[i - 1].Due? && After(trace[..i]).held.None?
  }

  /** The index of the last run before `end`, or -1. */
  ghost function LastRun(trace: seq<Event>, end: nat): (r: int)
    requires end <= |trace|
    ensures -1 <= r < end && (r >= 0 ==> trace[r].Ran?)
    ensures forall i :: r < i < end ==> !trace[i].Ran?
  {
    if end == 0 then -1 else if trace[end - 1].Ran? then end - 1 else LastRun(trace, end - 1)
  }

  ghost predicate QualifyingRun(e: Event) {
    e.Ran? && e.report.Some? && Qualifies(e.report.value)
  }

  /** A due time only jobs' changes explain: no edit reached the inputs, and jobs changed some path inside them. */
  ghost predicate SelfCaused(e: Event) {
    && e.Due? && !e.due.retryOnly && e.due.fingerprinted
    && !Edited(e.due, e.changes) && Caused(e.due, e.changes.value) != map[]
  }

  ghost function CausedAt(trace: seq<Event>, d: int): JobsByPath
    requires 0 <= d < |trace| && SelfCaused(trace[d])
  {
    Caused(trace[d].due, trace[d].changes.value)
  }

  /**
   * Successive due times, in order: each self-caused and following a qualifying run, which began straight after the
   * due time before it.
   */
  ghost predicate Successive(trace: seq<Event>, times: seq<int>) {
    && (forall n :: 0 <= n < |times| ==>
          && 0 <= times[n] < |trace| && SelfCaused(trace[times[n]])
          && LastRun(trace, times[n]) >= 0 && QualifyingRun(trace[LastRun(trace, times[n])]))
    && (forall n :: 0 < n < |times| ==> times[n - 1] == LastRun(trace, times[n]) - 1)
  }

  /** The paths every one of the due times changed. */
  ghost predicate ChangedEachTime(trace: seq<Event>, times: seq<int>, path: Path)
    requires Successive(trace, times)
  {
    forall n :: 0 <= n < |times| ==> path in CausedAt(trace, times[n])
  }

  /** The count is of these due times: as many, sharing exactly the paths all of them changed, at least one. */
  ghost predicate Counts(trace: seq<Event>, times: seq<int>, count: Count) {
    && Successive(trace, times) && |times| == count.count > 0
    && count.shared != map[]
    && forall path :: path in count.shared <==> ChangedEachTime(trace, times, path)
  }

  /** The count is of successive due times up to `last`. */
  ghost predicate CountsUpTo(trace: seq<Event>, count: Count, last: int) {
    exists times :: Counts(trace, times, count) && times[|times| - 1] == last
  }

  lemma LastRunExtends(trace: seq<Event>, e: Event, end: nat)
    requires end <= |trace|
    ensures LastRun(trace + [e], end) == LastRun(trace, end)
  {
    assert forall i :: 0 <= i < end ==> (trace + [e])[i] == trace[i];
  }

  lemma CountsExtend(trace: seq<Event>, e: Event, count: Count, last: int)
    requires CountsUpTo(trace, count, last)
    ensures CountsUpTo(trace + [e], count, last)
  {
    var times :| Counts(trace, times, count) && times[|times| - 1] == last;
    hide LastRun, SelfCaused, QualifyingRun, CausedAt;
    SuccessiveExtends(trace, e, times);
    assert Counts(trace + [e], times, count);
  }

  lemma SuccessiveExtends(trace: seq<Event>, e: Event, times: seq<int>)
    requires Successive(trace, times)
    ensures Successive(trace + [e], times)
    ensures forall path :: ChangedEachTime(trace + [e], times, path) <==> ChangedEachTime(trace, times, path)
  {
    forall n | 0 <= n < |times|
      ensures LastRun(trace + [e], times[n]) == LastRun(trace, times[n])
    {
      LastRunExtends(trace, e, times[n]);
    }
    hide LastRun, SelfCaused, QualifyingRun;
  }

  /** The next count of a self-caused due time after a qualifying run counts one time more, or starts again at it. */
  lemma FollowOnCounts(trace: seq<Event>, base: Count)
    requires trace != [] && SelfCaused(trace[|trace| - 1])
    requires var r := LastRun(trace, |trace| - 1);
             r >= 0 && QualifyingRun(trace[r]) && (base.count > 0 ==> CountsUpTo(trace, base, r - 1))
    ensures var next := FollowOn(base, CausedAt(trace, |trace| - 1));
            CountsUpTo(trace, next, |trace| - 1) && next.count <= base.count + 1
  {
    var d := |trace| - 1;
    var r := LastRun(trace, d);
    var caused := CausedAt(trace, d);
    hide *;
    if base.count > 0 && SharedPaths(base.shared, caused) != map[] {
      var before := TimesOf(trace, base, r - 1);
      MoreCounts(trace, before, d, base);
      CountsWitness(trace, before + [d], Count(base.count + 1, SharedPaths(base.shared, caused)));
    } else {
      OneCounts(trace, [d], caused);
      CountsWitness(trace, [d], Count(1, caused));
    }
    FollowOnIs(base, caused);
  }

  lemma CountsWitness(trace: seq<Event>, times: seq<int>, count: Count)
    requires Counts(trace, times, count)
    ensures CountsUpTo(trace, count, times[|times| - 1])
  {
  }

  lemma TimesOf(trace: seq<Event>, count: Count, last: int) returns (times: seq<int>)
    requires CountsUpTo(trace, count, last)
    ensures Counts(trace, times, count) && times[|times| - 1] == last
  {
    times :| Counts(trace, times, count) && times[|times| - 1] == last;
  }

  lemma FollowOnIs(base: Count, caused: JobsByPath)
    ensures FollowOn(base, caused) ==
            if base.count > 0 && SharedPaths(base.shared, caused) != map[]
            then Count(base.count + 1, SharedPaths(base.shared, caused)) else Count(1, caused)
  {
  }

  lemma MoreCounts(trace: seq<Event>, before: seq<int>, d: int, base: Count)
    requires Counts(trace, before, base) && 0 <= d < |trace| && SelfCaused(trace[d])
    requires var r := LastRun(trace, d); r >= 0 && QualifyingRun(trace[r]) && before[|before| - 1] == r - 1
    requires SharedPaths(base.shared, CausedAt(trace, d)) != map[]
    ensures Counts(trace, before + [d], Count(base.count + 1, SharedPaths(base.shared, CausedAt(trace, d))))
  {
    hide LastRun, SelfCaused, QualifyingRun, CausedAt, SharedPaths;
    var times := before + [d];
    var shared := SharedPaths(base.shared, CausedAt(trace, d));
    assert Successive(trace, times);
    forall path
      ensures path in shared <==> ChangedEachTime(trace, times, path)
    {
      SharedIff(base.shared, CausedAt(trace, d), path);
      assert path in base.shared <==> ChangedEachTime(trace, before, path);
      ChangedMore(trace, before, d, path);
    }
  }

  lemma SharedIff(base: JobsByPath, caused: JobsByPath, path: Path)
    ensures path in SharedPaths(base, caused) <==> path in base && path in caused
  {
  }

  lemma ChangedMore(trace: seq<Event>, before: seq<int>, d: int, path: Path)
    requires Successive(trace, before) && Successive(trace, before + [d])
    requires 0 <= d < |trace| && SelfCaused(trace[d])
    ensures ChangedEachTime(trace, before + [d], path) <==>
            ChangedEachTime(trace, before, path) && path in CausedAt(trace, d)
  {
    hide Successive, LastRun, SelfCaused, QualifyingRun, CausedAt;
    var times := before + [d];
    assert times[|before|] == d && forall n :: 0 <= n < |before| ==> times[n] == before[n];
  }

  lemma OneCounts(trace: seq<Event>, times: seq<int>, caused: JobsByPath)
    requires |times| == 1 && Successive(trace, times) && caused == CausedAt(trace, times[0])
    ensures Counts(trace, times, Count(1, caused))
  {
    hide LastRun, SelfCaused, QualifyingRun, CausedAt;
    assert caused != map[] by { CausedSome(trace, times[0]); }
  }

  lemma CausedSome(trace: seq<Event>, d: int)
    requires 0 <= d < |trace| && SelfCaused(trace[d])
    ensures CausedAt(trace, d) != map[]
  {
  }

  /** What every planned trace keeps of its workspace `w`. */
  ghost predicate Kept(trace: seq<Event>, w: Workspace) {
    var r := LastRun(trace, |trace|);
    && (w.attempt.Some? <==> r >= 0)
    && (r >= 0 ==>
          && (w.attempt.value.qualifies <==> QualifyingRun(trace[r]))
          && w.attempt.value.startCount.count < SELF_CHANGE_HOLD_COUNT
          && (w.attempt.value.startCount.count > 0 ==> CountsUpTo(trace, w.attempt.value.startCount, r - 1)))
    && (w.held.None? ==> StartCount(w).count < SELF_CHANGE_HOLD_COUNT)
    && (w.held.None? && trace != [] && trace[|trace| - 1].Due? && StartCount(w).count > 0 ==>
          CountsUpTo(trace, StartCount(w), |trace| - 1))
    && (w.held.Some? ==> HeldSince(trace, w.held.value))
  }

  /** Held by three successive due times, with no run begun since the last of them. */
  ghost predicate HeldSince(trace: seq<Event>, count: Count) {
    && count.count == SELF_CHANGE_HOLD_COUNT
    && exists last :: LastRun(trace, |trace|) < last && CountsUpTo(trace, count, last)
  }

  lemma NextCountIs(attempt: Option<Attempt>, e: Event)
    requires e.Due?
    ensures NextCount(attempt, e.due, e.changes) ==
            if attempt.Some? && attempt.value.qualifies && SelfCaused(e)
            then FollowOn(attempt.value.startCount, Caused(e.due, e.changes.value)) else Count(0, map[])
  {
    hide FollowOn;
  }

  lemma BaseExtends(trace: seq<Event>, w: Workspace, e: Event)
    requires Kept(trace, w) && w.attempt.Some? && w.attempt.value.qualifies
    ensures var all, base := trace + [e], w.attempt.value.startCount;
            var r := LastRun(all, |trace|);
            && r >= 0 && QualifyingRun(all[r]) && base.count < SELF_CHANGE_HOLD_COUNT
            && (base.count > 0 ==> CountsUpTo(all, base, r - 1))
  {
    hide *;
    var all, base, r := trace + [e], w.attempt.value.startCount, LastRun(trace, |trace|);
    KeptBase(trace, w);
    LastRunExtends(trace, e, |trace|);
    assert all[r] == trace[r];
    if base.count > 0 { CountsExtend(trace, e, base, r - 1); }
  }

  lemma KeptBase(trace: seq<Event>, w: Workspace)
    requires Kept(trace, w) && w.attempt.Some? && w.attempt.value.qualifies
    ensures var base, r := w.attempt.value.startCount, LastRun(trace, |trace|);
            && r >= 0 && QualifyingRun(trace[r]) && base.count < SELF_CHANGE_HOLD_COUNT
            && (base.count > 0 ==> CountsUpTo(trace, base, r - 1))
  {
    hide CountsUpTo, HeldSince, LastRun, QualifyingRun;
  }

  /** The count a due time decides is of successive due times up to it. */
  lemma NextCounts(trace: seq<Event>, w: Workspace, e: Event)
    requires Kept(trace, w) && e.Due?
    ensures var next := NextCount(w.attempt, e.due, e.changes);
            && next.count <= SELF_CHANGE_HOLD_COUNT
            && (next.count > 0 ==> CountsUpTo(trace + [e], next, |trace|))
  {
    hide *;
    NextCountIs(w.attempt, e);
    if w.attempt.Some? && w.attempt.value.qualifies && SelfCaused(e) {
      var all := trace + [e];
      assert all[|trace|] == e;
      BaseExtends(trace, w, e);
      FollowOnCounts(all, w.attempt.value.startCount);
      CausedIs(all, |trace|);
    }
  }

  lemma CausedIs(trace: seq<Event>, d: int)
    requires 0 <= d < |trace| && SelfCaused(trace[d])
    ensures trace[d].Due? && trace[d].changes.Some?
    ensures CausedAt(trace, d) == Caused(trace[d].due, trace[d].changes.value)
  {
  }

  lemma HeldExtends(trace: seq<Event>, e: Event, count: Count)
    requires HeldSince(trace, count) && e.Due?
    ensures HeldSince(trace + [e], count)
  {
    var last :| LastRun(trace, |trace|) < last && CountsUpTo(trace, count, last);
    CountsExtend(trace, e, count, last);
    LastRunExtends(trace, e, |trace|);
    hide Counts, CountsUpTo;
    assert LastRun(trace + [e], |trace| + 1) == LastRun(trace, |trace|);
  }

  lemma NewlyHeld(trace: seq<Event>, e: Event, count: Count)
    requires e.Due? && CountsUpTo(trace + [e], count, |trace|) && count.count == SELF_CHANGE_HOLD_COUNT
    ensures HeldSince(trace + [e], count)
  {
    hide CountsUpTo;
    assert LastRun(trace + [e], |trace| + 1) < |trace|;
  }

  lemma KeepsDue(trace: seq<Event>, w: Workspace, e: Event)
    requires Kept(trace, w) && e.Due?
    ensures Kept(trace + [e], Step(w, e))
  {
    var all := trace + [e];
    var next := NextCount(w.attempt, e.due, e.changes);
    var r := LastRun(trace, |trace|);
    LastRunExtends(trace, e, |trace|);
    assert LastRun(all, |all|) == r && (r >= 0 ==> all[r] == trace[r]);
    NextCounts(trace, w, e);
    hide CountsUpTo, LastRun, NextCount, QualifyingRun, HeldSince, Edited;
    if r >= 0 && w.attempt.value.startCount.count > 0 {
      CountsExtend(trace, e, w.attempt.value.startCount, r - 1);
    }
    if w.held.Some? && !Edited(e.due, e.changes) {
      HeldExtends(trace, e, w.held.value);
    } else if next.count == SELF_CHANGE_HOLD_COUNT {
      NewlyHeld(trace, e, next);
    }
  }

  lemma AfterRunIs(w: Workspace, e: Event)
    requires e.Ran?
    ensures var now := Step(w, e);
            && now.decided == w.decided && now.held == w.held && now.attempt.Some?
            && now.attempt.value.startCount == StartCount(w)
            && (now.attempt.value.qualifies <==> QualifyingRun(e))
  {
  }

  lemma KeepsRan(trace: seq<Event>, w: Workspace, e: Event)
    requires Kept(trace, w) && e.Ran?
    requires trace != [] && trace[|trace| - 1].Due? && w.held.None?
    ensures Kept(trace + [e], Step(w, e))
  {
    var all := trace + [e];
    AfterRunIs(w, e);
    assert LastRun(all, |all|) == |trace| && all[|trace|] == e;
    hide CountsUpTo, LastRun, Step, QualifyingRun, HeldSince;
    if StartCount(w).count > 0 {
      CountsExtend(trace, e, StartCount(w), |trace| - 1);
    }
  }

  lemma {:induction false} PlannedKeeps(trace: seq<Event>)
    requires Planned(trace)
    ensures Kept(trace, After(trace))
  {
    if trace != [] {
      var before, e := trace[..|trace| - 1], trace[|trace| - 1];
      PlannedBefore(trace);
      PlannedKeeps(before);
      assert After(trace) == Step(After(before), e) && trace == before + [e];
      hide After, Kept, Step;
      if e.Due? { KeepsDue(before, After(before), e); } else { KeepsRan(before, After(before), e); }
    }
  }

  lemma PlannedBefore(trace: seq<Event>)
    requires Planned(trace) && trace != []
    ensures var before, e := trace[..|trace| - 1], trace[|trace| - 1];
            Planned(before) && (e.Ran? ==> before != [] && before[|before| - 1].Due? && After(before).held.None?)
  {
    hide After;
    var before := trace[..|trace| - 1];
    forall i | 0 <= i < |before| && before[i].Ran?
      ensures i > 0 && before[i - 1].Due? && After(before[..i]).held.None?
    {
      assert trace[i] == before[i] && trace[..i] == before[..i];
    }
  }

  /**
   * A workspace is held only after three successive due times, each self-caused, following a qualifying run and with
   * no edit inside its inputs, no run having begun since; the paths the hold shares are exactly those all three
   * changed, at least one.
   */
  lemma HeldAfterThree(trace: seq<Event>)
    requires Planned(trace) && After(trace).held.Some?
    ensures exists times ::
              && |times| == SELF_CHANGE_HOLD_COUNT && Counts(trace, times, After(trace).held.value)
              && LastRun(trace, |trace|) < times[SELF_CHANGE_HOLD_COUNT - 1]
  {
    PlannedKeeps(trace);
    var count := After(trace).held.value;
    hide After, LastRun, CountsUpTo;
    var last :| LastRun(trace, |trace|) < last && CountsUpTo(trace, count, last);
    var times := TimesOf(trace, count, last);
    CountsLength(trace, times, count);
    hide Counts;
  }

  lemma CountsLength(trace: seq<Event>, times: seq<int>, count: Count)
    requires Counts(trace, times, count)
    ensures |times| == count.count
  {
  }

  /** The last run begun keeps the count decided straight before it. */
  lemma {:induction false} StartedAt(trace: seq<Event>)
    requires Planned(trace) && LastRun(trace, |trace|) >= 0
    ensures var r := LastRun(trace, |trace|);
            && After(trace).attempt.Some?
            && After(trace).attempt.value.startCount == StartCount(After(trace[..r]))
  {
    var before, e := trace[..|trace| - 1], trace[|trace| - 1];
    PlannedBefore(trace);
    assert trace == before + [e] && After(trace) == Step(After(before), e);
    LastRunExtends(before, e, |before|);
    if e.Ran? {
      AfterRunIs(After(before), e);
    } else {
      StartedAt(before);
      var r := LastRun(before, |before|);
      assert trace[..r] == before[..r];
      hide LastRun, After, NextCount;
    }
  }

  /** A due time decides a count above 1 only by counting one more than the run before it began at. */
  lemma DueCounts(trace: seq<Event>, d: int)
    requires Planned(trace) && 0 <= d < |trace| && trace[d].Due? && After(trace[..d + 1]).held.None?
    requires StartCount(After(trace[..d + 1])).count > 1
    ensures var r := LastRun(trace, d);
            r >= 0 && StartCount(After(trace[..r])).count == StartCount(After(trace[..d + 1])).count - 1
  {
    PlannedPrefix(trace, d);
    DecidedFrom(trace[..d + 1]);
    assert trace[..d + 1][..d] == trace[..d];
    StartedFrom(trace, d);
  }

  lemma {:induction false} PlannedPrefix(trace: seq<Event>, d: int)
    requires Planned(trace) && 0 <= d <= |trace|
    ensures Planned(trace[..d])
  {
    if d < |trace| {
      PlannedBefore(trace);
      PlannedPrefix(trace[..|trace| - 1], d);
      assert trace[..|trace| - 1][..d] == trace[..d];
    } else {
      assert trace[..d] == trace;
    }
  }

  lemma DecidedFrom(trace: seq<Event>)
    requires trace != [] && trace[|trace| - 1].Due?
    requires After(trace).held.None? || After(trace[..|trace| - 1]).held.None?
    requires StartCount(After(trace)).count > 1
    ensures var w := After(trace[..|trace| - 1]);
            w.attempt.Some? && w.attempt.value.startCount.count == StartCount(After(trace)).count - 1
  {
    NextCountIs(After(trace[..|trace| - 1]).attempt, trace[|trace| - 1]);
    hide NextCount, SelfCaused, Edited, Caused, SharedPaths;
  }

  lemma StartedFrom(trace: seq<Event>, d: int)
    requires 0 <= d <= |trace| && Planned(trace[..d]) && After(trace[..d]).attempt.Some?
    ensures var r := LastRun(trace, d);
            r >= 0 && After(trace[..d]).attempt.value.startCount == StartCount(After(trace[..r]))
  {
    LastRunPrefix(trace, d);
    PlannedKeeps(trace[..d]);
    StartedAt(trace[..d]);
    var r := LastRun(trace, d);
    assert trace[..d][..r] == trace[..r];
  }

  lemma LastRunPrefix(trace: seq<Event>, d: int)
    requires 0 <= d <= |trace|
    ensures LastRun(trace[..d], d) == LastRun(trace, d)
  {
    assert forall i :: 0 <= i < d ==> trace[..d][i] == trace[i];
  }

  /** A count starts at the due time: no count before it goes on there. */
  ghost predicate StartsCount(trace: seq<Event>, d: int) {
    0 <= d < |trace| && StartCount(After(trace[..d + 1])).count == 1
  }

  lemma DueStep(trace: seq<Event>, d: int)
    requires 0 <= d < |trace|
    ensures After(trace[..d + 1]) == Step(After(trace[..d]), trace[d])
  {
    assert trace[..d + 1][..d] == trace[..d];
    hide Step;
  }

  /** After a hold-free self-caused due time the count is its next count. */
  lemma SelfCausedDecides(w: Workspace, e: Event)
    requires e.Due? && SelfCaused(e) && (w.held.None? || Step(w, e).held.None?)
    ensures var next := NextCount(w.attempt, e.due, e.changes);
            && StartCount(Step(w, e)) == next
            && (Step(w, e).held.Some? <==> next.count >= SELF_CHANGE_HOLD_COUNT)
  {
    hide NextCount, Caused, Edited;
    assert !Edited(e.due, e.changes);
  }

  /** A path the run's count shares and the due time changed again makes the count go on. */
  lemma CountGoesOn(trace: seq<Event>, d: int, path: Path)
    requires Planned(trace) && 0 <= d < |trace| && SelfCaused(trace[d]) && path in CausedAt(trace, d)
    requires After(trace[..d]).held.None? || After(trace[..d + 1]).held.None?
    requires var r := LastRun(trace, d);
             r >= 0 && QualifyingRun(trace[r]) && StartCount(After(trace[..r])).count > 0
             && path in StartCount(After(trace[..r])).shared
    ensures var base, now := StartCount(After(trace[..LastRun(trace, d)])), After(trace[..d + 1]);
            && StartCount(now).count == base.count + 1 && path in StartCount(now).shared
            && (now.held.Some? <==> StartCount(now).count >= SELF_CHANGE_HOLD_COUNT)
  {
    var w := After(trace[..d]);
    DueStep(trace, d);
    PlannedPrefix(trace, d);
    PlannedKeeps(trace[..d]);
    LastRunPrefix(trace, d);
    assert w.attempt.Some? && w.attempt.value.qualifies by {
      assert trace[..d][LastRun(trace, d)] == trace[LastRun(trace, d)];
      hide CountsUpTo, HeldSince, After;
    }
    StartedFrom(trace, d);
    SelfCausedDecides(w, trace[d]);
    NextCountIs(w.attempt, trace[d]);
    CausedIs(trace, d);
    var base, caused := w.attempt.value.startCount, CausedAt(trace, d);
    hide After, Step, NextCount, LastRun, SelfCaused, QualifyingRun, CausedAt, Caused, Kept;
    FollowOnIs(base, caused);
    SharedIff(base.shared, caused, path);
    hide SharedPaths, FollowOn;
    assert path in base.shared;
  }

  /** A count that starts shares what its due time changed. */
  lemma StartsWithCaused(trace: seq<Event>, d: int)
    requires 0 <= d < |trace| && SelfCaused(trace[d]) && StartsCount(trace, d)
    requires After(trace[..d + 1]).held.None?
    ensures StartCount(After(trace[..d + 1])) == Count(1, CausedAt(trace, d))
  {
    var w := After(trace[..d]);
    DueStep(trace, d);
    SelfCausedDecides(w, trace[d]);
    NextCountIs(w.attempt, trace[d]);
    CausedIs(trace, d);
    hide After, Step, NextCount, SelfCaused, CausedAt, Caused;
    if w.attempt.Some? { FollowOnIs(w.attempt.value.startCount, CausedAt(trace, d)); }
    hide FollowOn, SharedPaths;
  }

  lemma SuccessiveAt(trace: seq<Event>, times: seq<int>, n: int)
    requires Successive(trace, times) && 0 <= n < |times|
    ensures 0 <= times[n] < |trace| && SelfCaused(trace[times[n]])
    ensures LastRun(trace, times[n]) >= 0 && QualifyingRun(trace[LastRun(trace, times[n])])
    ensures n > 0 ==> times[n - 1] == LastRun(trace, times[n]) - 1
  {
  }

  lemma PlannedAt(trace: seq<Event>, i: int)
    requires Planned(trace) && 0 <= i < |trace| && trace[i].Ran?
    ensures After(trace[..i]).held.None?
  {
    hide After;
  }

  /** The time before in a chain is straight before the run that the next time follows, when nothing was held. */
  lemma NotHeldBetween(trace: seq<Event>, times: seq<int>, n: int)
    requires Planned(trace) && Successive(trace, times) && 0 < n < |times|
    ensures var d := times[n - 1];
            0 <= d < |trace| - 1 && LastRun(trace, times[n]) == d + 1 && After(trace[..d + 1]).held.None?
  {
    hide *;
    SuccessiveAt(trace, times, n - 1);
    SuccessiveAt(trace, times, n);
    PlannedAt(trace, LastRun(trace, times[n]));
  }

  lemma ChangedAt(trace: seq<Event>, times: seq<int>, path: Path, n: int)
    requires Successive(trace, times) && ChangedEachTime(trace, times, path) && 0 <= n < |times|
    ensures 0 <= times[n] < |trace| && SelfCaused(trace[times[n]]) && path in CausedAt(trace, times[n])
  {
    hide LastRun, QualifyingRun, SelfCaused, CausedAt;
  }

  lemma ThirdTimeHolds(trace: seq<Event>, times: seq<int>, path: Path)
    requires Planned(trace) && Successive(trace, times) && |times| == 3
    requires times[2] == |trace| - 1 && After(trace[..times[2]]).held.None?
    requires StartsCount(trace, times[0]) && ChangedEachTime(trace, times, path)
    ensures After(trace).held.Some?
  {
    hide *;
    NotHeldBetween(trace, times, 1);
    NotHeldBetween(trace, times, 2);
    SuccessiveAt(trace, times, 1);
    SuccessiveAt(trace, times, 2);
    ChangedAt(trace, times, path, 0);
    ChangedAt(trace, times, path, 1);
    ChangedAt(trace, times, path, 2);
    StartsWithCaused(trace, times[0]);
    assert StartCount(After(trace[..times[0] + 1])).count == 1;
    CountGoesOn(trace, times[1], path);
    CountGoesOn(trace, times[2], path);
    HoldsAtThree();
    assert trace[..|trace|] == trace;
  }

  lemma HoldsAtThree()
    ensures SELF_CHANGE_HOLD_COUNT == 3
  {
  }

  lemma NewlyHeldDecides(w: Workspace, e: Event)
    requires e.Due? && w.held.None? && Step(w, e).held.Some?
    ensures var next := NextCount(w.attempt, e.due, e.changes);
            StartCount(Step(w, e)) == next && next.count >= SELF_CHANGE_HOLD_COUNT
  {
    hide NextCount, Edited;
  }

  lemma HeldCount(trace: seq<Event>)
    requires Planned(trace) && trace != [] && trace[|trace| - 1].Due?
    requires After(trace[..|trace| - 1]).held.None? && After(trace).held.Some?
    ensures var next := StartCount(After(trace));
            next.count == 3 && CountsUpTo(trace, next, |trace| - 1)
  {
    hide *;
    var before, e := trace[..|trace| - 1], trace[|trace| - 1];
    HoldsAtThree();
    PlannedBefore(trace);
    PlannedKeeps(before);
    NextCounts(before, After(before), e);
    DueStep(trace, |trace| - 1);
    assert trace == before + [e] && trace[..|trace| - 1 + 1] == trace;
    NewlyHeldDecides(After(before), e);
  }

  lemma HeldStartsCount(trace: seq<Event>) returns (times: seq<int>, path: Path)
    requires Planned(trace) && trace != [] && trace[|trace| - 1].Due?
    requires After(trace[..|trace| - 1]).held.None? && After(trace).held.Some?
    ensures |times| == 3 && Successive(trace, times) && times[2] == |trace| - 1
    ensures StartsCount(trace, times[0]) && ChangedEachTime(trace, times, path)
  {
    hide *;
    var last := |trace| - 1;
    HeldCount(trace);
    var next := StartCount(After(trace));
    times := TimesOf(trace, next, last);
    path := CommonPath(trace, times, next);
    assert trace[..last + 1] == trace && trace[..last] == trace[..|trace| - 1];
    PlannedPrefix(trace, last);
    DecidedFrom(trace);
    StartedFrom(trace, last);
    NotHeldBetween(trace, times, 1);
    NotHeldBetween(trace, times, 2);
    SuccessiveAt(trace, times, 1);
    SelfCausedIsDue(trace[times[1]]);
    DueCounts(trace, times[1]);
    CountStarts(trace, times[0]);
  }

  lemma CommonPath(trace: seq<Event>, times: seq<int>, count: Count) returns (path: Path)
    requires Counts(trace, times, count)
    ensures Successive(trace, times) && |times| == count.count && ChangedEachTime(trace, times, path)
  {
    hide Successive, ChangedEachTime;
    path :| path in count.shared;
  }

  lemma SelfCausedIsDue(e: Event)
    requires SelfCaused(e)
    ensures e.Due?
  {
  }

  lemma CountStarts(trace: seq<Event>, d: int)
    requires 0 <= d < |trace| && StartCount(After(trace[..d + 1])).count == 1
    ensures StartsCount(trace, d)
  {
  }

  /**
   * Held exactly: a plan that finds an unheld workspace due holds it if and only if that due time is the third of three
   * successive ones that changed a common path, and a count started at the first of them.
   */
  lemma HeldExactly(trace: seq<Event>)
    requires Planned(trace) && trace != [] && trace[|trace| - 1].Due?
    requires After(trace[..|trace| - 1]).held.None?
    ensures After(trace).held.Some? <==>
            exists times, path ::
              && |times| == SELF_CHANGE_HOLD_COUNT && Successive(trace, times)
              && times[SELF_CHANGE_HOLD_COUNT - 1] == |trace| - 1
              && StartsCount(trace, times[0]) && ChangedEachTime(trace, times, path)
  {
    if After(trace).held.Some? {
      var times, path := HeldStartsCount(trace);
    }
    hide After, Successive, ChangedEachTime, StartsCount, Planned;
    if times, path :|
      && |times| == SELF_CHANGE_HOLD_COUNT && Successive(trace, times)
      && times[SELF_CHANGE_HOLD_COUNT - 1] == |trace| - 1
      && StartsCount(trace, times[0]) && ChangedEachTime(trace, times, path)
    {
      assert trace[..times[2]] == trace[..|trace| - 1];
      ThirdTimeHolds(trace, times, path);
    }
  }

  /** The run before a hold was begun at the count that lets no change interrupt it, so it runs to its end. */
  lemma UninterruptibleBeforeHold(trace: seq<Event>)
    requires Planned(trace) && trace != [] && trace[|trace| - 1].Due?
    requires After(trace[..|trace| - 1]).held.None? && After(trace).held.Some?
    ensures var r := LastRun(trace, |trace| - 1); r >= 0 && Uninterruptible(After(trace[..r]))
  {
    HeldCount(trace);
    var last := |trace| - 1;
    PlannedPrefix(trace, last);
    DecidedFrom(trace);
    StartedFrom(trace, last);
    hide After, LastRun, CountsUpTo;
  }

  ghost function RunsOf(trace: seq<Event>): nat {
    if trace == [] then 0 else RunsOf(trace[..|trace| - 1]) + if trace[|trace| - 1].Ran? then 1 else 0
  }

  /** Every run qualifies, and every due time after the first run is self-caused and changed the path. */
  ghost predicate AlwaysChanges(trace: seq<Event>, path: Path) {
    && (forall i :: 0 <= i < |trace| && trace[i].Ran? ==> QualifyingRun(trace[i]))
    && (forall d :: 0 <= d < |trace| && trace[d].Due? && LastRun(trace, d) >= 0 ==>
          SelfCaused(trace[d]) && path in CausedAt(trace, d))
  }

  ghost predicate ChangesSoFar(w: Workspace, runs: nat, due: bool, path: Path) {
    && (runs == 0 ==> w.held.None? && w.attempt.None? && StartCount(w).count == 0)
    && (runs > 0 ==>
          && w.attempt.Some? && w.attempt.value.qualifies && w.attempt.value.startCount.count == runs - 1
          && (runs > 1 ==> path in w.attempt.value.startCount.shared))
    && (runs > 0 && due ==> StartCount(w).count == runs && path in StartCount(w).shared)
    && (w.held.Some? <==> runs == 3 && due)
    && runs <= 3
  }

  lemma ChangesMore(w: Workspace, e: Event, runs: nat, due: bool, path: Path)
    requires ChangesSoFar(w, runs, due, path)
    requires e.Ran? ==> due && w.held.None? && QualifyingRun(e)
    requires e.Due? && runs > 0 ==> SelfCaused(e) && path in Caused(e.due, e.changes.value)
    ensures ChangesSoFar(Step(w, e), runs + (if e.Ran? then 1 else 0), e.Due?, path)
  {
    if e.Ran? {
      AfterRunIs(w, e);
      hide Step, QualifyingRun;
    } else {
      NextCountIs(w.attempt, e);
      if runs > 0 {
        var base, caused := w.attempt.value.startCount, Caused(e.due, e.changes.value);
        hide Caused;
        FollowOnIs(base, caused);
        SharedIff(base.shared, caused, path);
      }
      hide NextCount, FollowOn, SharedPaths, Caused;
    }
  }

  /**
   * From a fresh history, a workspace whose every run changes one fixed input begins at most three runs, and is held at
   * the plan after the third, which was begun uninterruptible.
   */
  lemma {:induction false} AtMostThreeRuns(trace: seq<Event>, path: Path)
    requires Planned(trace) && AlwaysChanges(trace, path)
    ensures RunsOf(trace) <= SELF_CHANGE_HOLD_COUNT
    ensures ChangesSoFar(After(trace), RunsOf(trace), trace != [] && trace[|trace| - 1].Due?, path)
    ensures RunsOf(trace) == 0 <==> LastRun(trace, |trace|) == -1
  {
    HoldsAtThree();
    if trace != [] {
      hide *;
      var before, e := trace[..|trace| - 1], trace[|trace| - 1];
      PlannedBefore(trace);
      AlwaysBefore(trace, path);
      AlwaysLast(trace, path);
      RunsMore(trace);
      AtMostThreeRuns(before, path);
      LastStep(trace);
      ChangesMore(After(before), e, RunsOf(before), before != [] && before[|before| - 1].Due?, path);
      ChangesBounded(After(trace), RunsOf(trace), e.Due?, path);
    }
  }

  lemma LastStep(trace: seq<Event>)
    requires trace != []
    ensures After(trace) == Step(After(trace[..|trace| - 1]), trace[|trace| - 1])
  {
    hide Step;
  }

  lemma RunsMore(trace: seq<Event>)
    requires trace != []
    ensures var before := trace[..|trace| - 1];
            && RunsOf(trace) == RunsOf(before) + (if trace[|before|].Ran? then 1 else 0)
            && LastRun(before, |before|) == LastRun(trace, |before|)
            && LastRun(trace, |trace|) == if trace[|before|].Ran? then |before| else LastRun(trace, |before|)
  {
    LastRunPrefix(trace, |trace| - 1);
  }

  lemma ChangesBounded(w: Workspace, runs: nat, due: bool, path: Path)
    requires ChangesSoFar(w, runs, due, path)
    ensures runs <= 3
  {
  }

  lemma AlwaysLast(trace: seq<Event>, path: Path)
    requires AlwaysChanges(trace, path) && trace != []
    ensures var e := trace[|trace| - 1];
            && (e.Ran? ==> QualifyingRun(e))
            && (e.Due? && LastRun(trace, |trace| - 1) >= 0 ==>
                  SelfCaused(e) && path in Caused(e.due, e.changes.value))
  {
    var e := trace[|trace| - 1];
    if e.Due? && LastRun(trace, |trace| - 1) >= 0 {
      CausedIs(trace, |trace| - 1);
    }
    hide LastRun, SelfCaused, QualifyingRun, CausedAt, Caused;
  }

  lemma AlwaysBefore(trace: seq<Event>, path: Path)
    requires AlwaysChanges(trace, path) && trace != []
    ensures AlwaysChanges(trace[..|trace| - 1], path)
  {
    hide LastRun, SelfCaused, QualifyingRun, CausedAt, Caused;
    var before, e := trace[..|trace| - 1], trace[|trace| - 1];
    assert trace == before + [e];
    forall d | 0 <= d < |before| && before[d].Due? && LastRun(before, d) >= 0
      ensures SelfCaused(before[d]) && path in CausedAt(before, d)
    {
      assert trace[d] == before[d];
      LastRunExtends(before, e, d);
      CausedIs(trace, d);
      CausedIs(before, d);
    }
    assert forall i :: 0 <= i < |before| ==> before[i] == trace[i];
  }

  /** Planning again over the same changes decides nothing new, whatever was decided before. */
  lemma PlanningAgainKeeps(w: Workspace, e: Event)
    requires e.Due?
    ensures Step(Step(w, e), e) == Step(w, e)
  {
    NextCountIs(w.attempt, e);
    hide NextCount, FollowOn, Caused;
    assert SelfCaused(e) ==> !Edited(e.due, e.changes);
    hide Edited;
  }

  /**
   * Planning again without a run between raises the count exactly when the first decision holds nothing, the last run
   * qualified, and the second decision finds changes of the jobs alone while the first found none such to count, or none
   * that share a path with the count the run began at where the second finds some that do.
   */
  lemma RaisedExactly(w: Workspace, first: Event, second: Event)
    requires first.Due? && second.Due?
    ensures StartCount(Step(Step(w, first), second)).count > StartCount(Step(w, first)).count <==>
            && Step(w, first).held.None? && w.attempt.Some? && w.attempt.value.qualifies && SelfCaused(second)
            && (SelfCaused(first) ==>
                  var base := w.attempt.value.startCount;
                  && base.count > 0
                  && SharedPaths(base.shared, Caused(first.due, first.changes.value)) == map[]
                  && SharedPaths(base.shared, Caused(second.due, second.changes.value)) != map[])
  {
    assert Step(w, first).attempt == w.attempt;
    if Step(w, first).held.Some? {
      HeldCountsNoMore(Step(w, first), second);
    } else {
      DecidesCount(w, first);
      DecidesCount(Step(w, first), second);
      NextCountIs(w.attempt, first);
      NextCountIs(w.attempt, second);
      hide NextCount, Step, SelfCaused;
      if w.attempt.Some? && SelfCaused(first) {
        FollowOnIs(w.attempt.value.startCount, Caused(first.due, first.changes.value));
      }
      if w.attempt.Some? && SelfCaused(second) {
        FollowOnIs(w.attempt.value.startCount, Caused(second.due, second.changes.value));
      }
    }
  }

  /** What leaves nothing held decided the next count after the last run. */
  lemma DecidesCount(w: Workspace, e: Event)
    requires e.Due? && (w.held.None? || Step(w, e).held.None?)
    ensures StartCount(Step(w, e)) == NextCount(w.attempt, e.due, e.changes)
  {
    hide NextCount, Edited;
  }

  lemma HeldCountsNoMore(w: Workspace, e: Event)
    requires e.Due? && w.held.Some?
    ensures StartCount(Step(w, e)).count <= StartCount(w).count
  {
    if Edited(e.due, e.changes) { NextCountIs(w.attempt, e); }
    hide NextCount, Edited;
  }

  /** A release never holds again in the same decision. */
  lemma ReleaseNeverReholds(w: Workspace, e: Event)
    requires e.Due? && w.held.Some? && Edited(e.due, e.changes)
    ensures Step(w, e).held.None? && StartCount(Step(w, e)) == NO_COUNT
  {
  }

  const ANYWHERE := DueFacts("w", false, true, Placement(p => true, s => false))

  function Stored(window: Window): Event {
    Ran(0, "", Some(Report(0, true, false, None, false, window)), 0)
  }

  function ChangedDue(paths: set<Path>): Event {
    Due(ANYWHERE, Some(Sets(map p | p in paths :: {RunOf("w")}, {}, false)))
  }

  lemma ChangedDueCauses(paths: set<Path>)
    requires paths != {}
    ensures SelfCaused(ChangedDue(paths))
    ensures Caused(ANYWHERE, ChangedDue(paths).changes.value).Keys == paths
  {
    var caused := Caused(ANYWHERE, ChangedDue(paths).changes.value);
    var path :| path in paths;
    assert path in caused;
  }

  lemma AfterMore(trace: seq<Event>, e: Event)
    ensures After(trace + [e]) == Step(After(trace), e)
  {
    assert (trace + [e])[..|trace|] == trace;
    hide Step;
  }

  /** What a due time that changed `paths` decides after a qualifying run. */
  lemma ChangedDueDecides(w: Workspace, paths: set<Path>)
    requires paths != {} && w.held.None? && w.attempt.Some? && w.attempt.value.qualifies
    ensures var base, now := w.attempt.value.startCount, Step(w, ChangedDue(paths));
            var goesOn := base.count > 0 && base.shared.Keys * paths != {};
            && StartCount(now).count == (if goesOn then base.count + 1 else 1)
            && StartCount(now).shared.Keys == (if goesOn then base.shared.Keys * paths else paths)
            && (StartCount(now).count < SELF_CHANGE_HOLD_COUNT ==> now.held.None?)
  {
    var e, base := ChangedDue(paths), w.attempt.value.startCount;
    var caused := Caused(e.due, e.changes.value);
    ChangedDueCauses(paths);
    SelfCausedDecides(w, e);
    NextCountIs(w.attempt, e);
    FollowOnIs(base, caused);
    assert SharedPaths(base.shared, caused).Keys == base.shared.Keys * caused.Keys;
    assert SharedPaths(base.shared, caused) == map[] <==> SharedPaths(base.shared, caused).Keys == {};
    hide Step, NextCount, FollowOn, SharedPaths, Caused, SelfCaused;
  }

  lemma StoredBegins(w: Workspace, window: Window)
    ensures var now := Step(w, Stored(window));
            && now.held == w.held && now.attempt.Some? && now.attempt.value.qualifies
            && now.attempt.value.startCount == StartCount(w)
  {
  }

  /** The last due time of the trace decided this count, and held nothing. */
  ghost predicate DecidedAt(trace: seq<Event>, count: nat, shared: set<Path>) {
    var w := After(trace);
    && Planned(trace) && trace != [] && trace[|trace| - 1].Due? && w.held.None?
    && StartCount(w).count == count && StartCount(w).shared.Keys == shared
  }

  lemma PlannedMore(trace: seq<Event>, e: Event)
    requires Planned(trace) && (e.Ran? ==> trace != [] && trace[|trace| - 1].Due? && After(trace).held.None?)
    ensures Planned(trace + [e])
  {
    hide After;
    var all := trace + [e];
    assert trace[..|trace|] == trace;
    forall i | 0 <= i < |all| && all[i].Ran?
      ensures i > 0 && all[i - 1].Due? && After(all[..i]).held.None?
    {
      assert all[..i] == trace[..i];
      assert i < |trace| ==> all[i] == trace[i];
      assert i > 0 ==> all[i - 1] == trace[i - 1];
    }
  }

  /** One more run, and the due time at which what it changed is found. */
  lemma RoundMore(trace: seq<Event>, count: nat, shared: set<Path>, window: Window)
    requires DecidedAt(trace, count, shared) && window.paths != {} && (count < 2 || shared * window.paths == {})
    ensures var goesOn := count > 0 && shared * window.paths != {};
            DecidedAt(trace + [Stored(window)] + [ChangedDue(window.paths)],
                      if goesOn then count + 1 else 1, if goesOn then shared * window.paths else window.paths)
  {
    var ran := trace + [Stored(window)];
    AfterMore(trace, Stored(window));
    StoredBegins(After(trace), window);
    AfterMore(ran, ChangedDue(window.paths));
    ChangedDueDecides(After(ran), window.paths);
    PlannedMore(trace, Stored(window));
    PlannedMore(ran, ChangedDue(window.paths));
    hide After, Planned, Step;
  }

  /** A due time straight after the qualifying run before it, which changed `path`. */
  ghost predicate ChangesAfterRun(trace: seq<Event>, t: nat, path: Path)
    requires 0 < t < |trace|
  {
    && SelfCaused(trace[t]) && LastRun(trace, t) == t - 1 && QualifyingRun(trace[t - 1])
    && path in CausedAt(trace, t)
  }

  lemma DueAfterRun(trace: seq<Event>, t: nat, window: Window, path: Path)
    requires 0 < t < |trace| && trace[t] == ChangedDue(window.paths) && trace[t - 1] == Stored(window)
    requires path in window.paths
    ensures ChangesAfterRun(trace, t, path)
  {
    ChangedDueCauses(window.paths);
    hide SelfCaused, Caused, ChangedDue;
  }

  lemma ThreeTimes(trace: seq<Event>, path: Path)
    requires |trace| == 9
    requires ChangesAfterRun(trace, 4, path) && ChangesAfterRun(trace, 6, path) && ChangesAfterRun(trace, 8, path)
    ensures Successive(trace, [4, 6, 8]) && ChangedEachTime(trace, [4, 6, 8], path)
  {
    hide SelfCaused, LastRun, QualifyingRun, CausedAt;
  }

  lemma FirstDecided()
    ensures DecidedAt([Due(ANYWHERE, None)], 0, {})
  {
    AfterMore([], Due(ANYWHERE, None));
    assert [] + [Due(ANYWHERE, None)] == [Due(ANYWHERE, None)];
  }
}
