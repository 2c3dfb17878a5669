/**
 * The change record: which job, or an edit, each input change counts as, over any order of jobs, reports and
 * readings.
 */
module ChangeRecords {
  import opened Options
  import opened SubjectChanges

  /** The record as a value. `unread` holds, by report, the keys of each report whose caller has not yet read them. */
  datatype Record = Record(
    subjects: map<Job, Sets>, last: Option<Digests>, running: map<Job, set<Path>>, unread: map<nat, set<Path>>)

  const FRESH := Record(map[], None, map[], map[])

  /** What a job's owner, a reading or a caller tells the record. */
  datatype Event =
    | JobBegan(job: Job)
    | JobNotBegun(job: Job)
    | JobThrew(job: Job)
    | JobEnded(job: Job, window: Window)
    | Observed(digests: Option<Digests>)
    | Reported(report: nat, keys: set<Path>)
    | ReadResolved(report: nat)

  function UnreadKeys(unread: map<nat, set<Path>>): set<Path> {
    set r, p | r in unread && p in unread[r] :: p
  }

  ghost function EveryEverywhere(subjects: map<Job, Sets>): map<Job, Sets> {
    map s | s in subjects :: EVERYWHERE
  }

  ghost function EveryEdits(subjects: map<Job, Sets>, edits: set<Path>): map<Job, Sets> {
    map s | s in subjects :: AddedEdits(subjects[s], edits)
  }

  ghost function EveryJob(subjects: map<Job, Sets>, caused: set<Path>, edits: set<Path>, job: Job): map<Job, Sets> {
    map s | s in subjects :: AddedEdits(AddedJob(subjects[s], caused, job), edits)
  }

  ghost function EveryMoved(subjects: map<Job, Sets>, keys: set<Path>): map<Job, Sets> {
    map s | s in subjects :: MovedToEdits(subjects[s], keys)
  }

  /** Every path that differs between two readings is an edit; an unreadable side is an edit to everything. */
  ghost function Interval(subjects: map<Job, Sets>, from: Option<Digests>, to: Option<Digests>): map<Job, Sets> {
    if from.None? || to.None? then EveryEverywhere(subjects)
    else
      var edits := ChangedPaths(from.value, to.value);
      if |edits| > MAX_COUNTED_CHANGES then EveryEverywhere(subjects) else EveryEdits(subjects, edits)
  }

  ghost function Ended(r: Record, window: Window, job: Job): Record {
    var reported := if job in r.running then r.running[job] else {};
    var subjects := Interval(r.subjects, r.last, window.startDigests)[job := NOTHING];
    Record(
      if window.causes != {} || |window.paths| > MAX_COUNTED_CHANGES then EveryEverywhere(subjects)
      else EveryJob(subjects, window.paths - reported, window.paths * reported, job),
      window.endDigests, r.running - {job}, r.unread)
  }

  ghost function Told(r: Record, e: Event): Record {
    match e
    case JobBegan(job) => r.(running := r.running[job := UnreadKeys(r.unread)])
    case JobNotBegun(job) => r.(running := r.running - {job})
    case JobThrew(job) => r.(running := r.running - {job}, subjects := r.subjects[job := NOTHING])
    case JobEnded(job, window) => Ended(r, window, job)
    case Observed(digests) => r.(subjects := Interval(r.subjects, r.last, digests), last := digests)
    case Reported(report, keys) =>
      Record(EveryMoved(r.subjects, keys), r.last,
             map j | j in r.running :: r.running[j] + keys, r.unread[report := keys])
    case ReadResolved(report) => r.(unread := r.unread - {report})
  }

  ghost function After(trace: seq<Event>): Record {
    if trace == [] then FRESH else Told(After(trace[..|trace| - 1]), trace[|trace| - 1])
  }

  /** The record in place, one set of counted changes by subject. */
  class ChangeRecord {
    var subjects: map<Job, ChangeSets>
    var last: Option<Digests>
    var running: map<Job, set<Path>>
    var unread: map<nat, set<Path>>
    var issued: nat

    ghost function Repr(): set<ChangeSets>
      reads this`subjects
    {
      set s | s in subjects :: subjects[s]
    }

    ghost predicate Valid()
      reads this`subjects, this`unread, this`issued, Repr()
    {
      && (forall s, t :: s in subjects && t in subjects && s != t ==> subjects[s] != subjects[t])
      && (forall s :: s in subjects ==> subjects[s].Valid())
      && (forall r :: r in unread ==> r < issued)
    }

    ghost function Views(): map<Job, Sets>
      reads this`subjects, Repr()
    {
      map s | s in subjects :: subjects[s].View()
    }

    ghost function View(): Record
      reads this, Repr()
    {
      Record(Views(), last, running, unread)
    }

    constructor ()
      ensures Valid() && fresh(Repr()) && View() == After([])
    {
      subjects, last, running, unread, issued := map[], None, map[], map[], 0;
    }

    /** What changed for `subject` since its last job began; none when none has begun. */
    method Of(subject: Job) returns (changed: Option<Sets>)
      requires Valid()
      ensures changed == Get(Views(), subject)
    {
      hide ChangeSets.Valid;
      if subject !in subjects { return None; }
      var sets := subjects[subject];
      return Some(Sets(sets.byJobs, sets.edits, sets.everywhere));
    }

    method JobBegan(subject: Job)
      requires Valid()
      modifies this`running
      ensures Valid() && View() == Told(old(View()), Event.JobBegan(subject))
    {
      hide ChangeSets.Valid, ChangeSets.View, UnreadKeys;
      running := running[subject := UnreadKeys(unread)];
    }

    method JobNotBegun(subject: Job)
      requires Valid()
      modifies this`running
      ensures Valid() && View() == Told(old(View()), Event.JobNotBegun(subject))
    {
      hide ChangeSets.Valid, ChangeSets.View;
      running := running - {subject};
    }

    method JobThrew(subject: Job)
      requires Valid()
      modifies this
      ensures Valid() && fresh(Repr() - old(Repr())) && View() == Told(old(View()), Event.JobThrew(subject))
    {
      hide ChangeSets.Valid, ChangeSets.View, Views;
      running := running - {subject};
      StartAfresh(subject);
    }

    method ReportEdits(keys: set<Path>) returns (report: nat)
      requires Valid()
      modifies this`running, this`unread, this`issued, Repr()
      ensures Valid() && subjects == old(subjects)
      ensures report == old(issued) && View() == Told(old(View()), Reported(report, keys))
    {
      hide ChangeSets.Valid, ChangeSets.View, Views, EveryMoved;
      MoveEvery(keys);
      running := map j | j in running :: running[j] + keys;
      report, issued, unread := issued, issued + 1, unread[issued := keys];
    }

    method MoveEvery(keys: set<Path>)
      requires Valid()
      modifies Repr()
      ensures Valid() && Views() == EveryMoved(old(Views()), keys)
    {
      hide ChangeSets.Valid, ChangeSets.View, MovedToEdits;
      ghost var was := Views();
      var todo := subjects.Keys;
      while todo != {}
        invariant Valid() && todo <= subjects.Keys
        invariant forall s :: s in subjects ==>
                    subjects[s].View() == if s in todo then was[s] else MovedToEdits(was[s], keys)
        decreases todo
        modifies Repr()
      {
        var s :| s in todo;
        subjects[s].MoveToEdits(keys);
        todo := todo - {s};
      }
    }

    method StartAfresh(subject: Job)
      requires Valid()
      modifies this`subjects
      ensures Valid() && fresh(Repr() - old(Repr())) && Views() == old(Views())[subject := NOTHING]
      ensures subjects.Keys == old(subjects.Keys) + {subject}
    {
      hide ChangeSets.Valid, ChangeSets.View;
      ghost var was := Views();
      var sets := new ChangeSets();
      subjects := subjects[subject := sets];
      assert forall s :: s in was && s != subject ==> subjects[s].View() == was[s];
    }

    method ReadReport(report: nat)
      requires Valid()
      modifies this`unread
      ensures Valid() && View() == Told(old(View()), ReadResolved(report))
    {
      hide ChangeSets.Valid, ChangeSets.View;
      unread := unread - {report};
    }

    method Observe(digests: Option<Digests>)
      requires Valid()
      modifies this`last, Repr()
      ensures Valid() && subjects == old(subjects) && View() == Told(old(View()), Observed(digests))
    {
      hide ChangeSets.Valid, ChangeSets.View, Interval;
      TakeInterval(digests);
      last := digests;
    }

    method JobEnded(window: Window, job: Job)
      requires Valid()
      modifies this, Repr()
      ensures Valid() && fresh(Repr() - old(Repr())) && View() == Told(old(View()), Event.JobEnded(job, window))
    {
      hide ChangeSets.Valid, ChangeSets.View, Views, Interval, EveryEverywhere, EveryJob;
      var reported := if job in running then running[job] else {};
      running := running - {job};
      TakeInterval(window.startDigests);
      StartAfresh(job);
      if window.causes != {} || |window.paths| > MAX_COUNTED_CHANGES {
        Everywhere();
      } else {
        Charge(window.paths - reported, window.paths * reported, job);
      }
      last := window.endDigests;
    }

    method TakeInterval(to: Option<Digests>)
      requires Valid()
      modifies Repr()
      ensures Valid() && Views() == Interval(old(Views()), last, to)
    {
      hide ChangeSets.Valid, ChangeSets.View, AddedEdits;
      if last.None? || to.None? {
        Everywhere();
        return;
      }
      if last == to {
        UnmovedAddsNothing();
        return;
      }
      var edits := ChangedPaths(last.value, to.value);
      if |edits| > MAX_COUNTED_CHANGES {
        Everywhere();
        return;
      }
      ghost var was := Views();
      var todo := subjects.Keys;
      while todo != {}
        invariant Valid() && todo <= subjects.Keys
        invariant forall s :: s in subjects ==>
                    subjects[s].View() == if s in todo then was[s] else AddedEdits(was[s], edits)
        decreases todo
        modifies Repr()
      {
        var s :| s in todo;
        subjects[s].AddEdits(edits);
        todo := todo - {s};
      }
    }

    lemma UnmovedAddsNothing()
      requires Valid() && last.Some?
      ensures Interval(Views(), last, last) == Views()
    {
      var edits := ChangedPaths(last.value, last.value);
      assert edits == {};
      forall s | s in subjects
        ensures AddedEdits(Views()[s], edits) == Views()[s]
      {
        subjects[s].KnownBounded();
        AddedEditsNone(subjects[s].View());
      }
    }

    /** Each path a job changed counts as its change, or as an edit when it held a report of it. */
    method Charge(caused: set<Path>, edits: set<Path>, job: Job)
      requires Valid()
      modifies Repr()
      ensures Valid() && Views() == EveryJob(old(Views()), caused, edits, job)
    {
      hide ChangeSets.Valid, ChangeSets.View, AddedJob, AddedEdits;
      ghost var was := Views();
      var todo := subjects.Keys;
      while todo != {}
        invariant Valid() && todo <= subjects.Keys
        invariant forall s :: s in subjects ==>
                    subjects[s].View() == if s in todo then was[s] else AddedEdits(AddedJob(was[s], caused, job), edits)
        decreases todo
        modifies Repr()
      {
        var s :| s in todo;
        subjects[s].AddJob(caused, job);
        subjects[s].AddEdits(edits);
        todo := todo - {s};
      }
    }

    /** Every subject's changes move to an edit to everything. */
    method Everywhere()
      requires Valid()
      modifies Repr()
      ensures Valid() && Views() == EveryEverywhere(old(Views()))
    {
      hide ChangeSets.Valid, ChangeSets.View;
      ghost var was := Views();
      var todo := subjects.Keys;
      while todo != {}
        invariant Valid() && todo <= subjects.Keys
        invariant forall s :: s in subjects ==> subjects[s].View() == if s in todo then was[s] else EVERYWHERE
        decreases todo
        modifies Repr()
      {
        var s :| s in todo;
        subjects[s].EditedEverywhere();
        todo := todo - {s};
      }
    }
  }
}
