/** One subject's changes since its last job began, told apart as a job's or an edit, up to a bound. */
module SubjectChanges {
  import opened Options

  type Path = string
  type Digests = map<Path, string>

  /** A job, and the subject whose changes start afresh with it. */
  datatype Job = RunOf(workspacePath: string) | Discovery

  /** What the tracker recorded while a job ran, with the committed digests at its start and end. */
  datatype Window = Window(
    paths: set<Path>, causes: set<string>, startDigests: Option<Digests>, endDigests: Option<Digests>)

  type JobsByPath = map<Path, set<Job>>

  /** One subject's changes, not yet placed in its inputs. */
  datatype Sets = Sets(byJobs: JobsByPath, edits: set<Path>, everywhere: bool) {
    ghost function Known(): set<Path> { byJobs.Keys + edits }
  }

  /** How many changed paths count one by one before they count as an edit to every input. */
  const MAX_COUNTED_CHANGES: nat := 1_000

  const NOTHING := Sets(map[], {}, false)
  const EVERYWHERE := Sets(map[], {}, true)

  function ChangedPaths(before: Digests, after: Digests): set<Path> {
    set p | p in before.Keys + after.Keys && Get(before, p) != Get(after, p)
  }

  /** The jobs of each path, `job` among those of each of `paths`. */
  function WithJob(byJobs: JobsByPath, paths: set<Path>, job: Job): JobsByPath {
    byJobs + map p | p in paths :: if p in byJobs then byJobs[p] + {job} else {job}
  }

  /** All the paths go in, or the whole of it overflows: the order they are added in decides nothing. */
  ghost function AddedJob(s: Sets, paths: set<Path>, job: Job): Sets {
    if s.everywhere then s
    else if |s.Known() + paths| > MAX_COUNTED_CHANGES then EVERYWHERE
    else s.(byJobs := WithJob(s.byJobs, paths, job))
  }

  ghost function AddedEdits(s: Sets, paths: set<Path>): Sets {
    if s.everywhere then s
    else if |s.Known() + paths| > MAX_COUNTED_CHANGES then EVERYWHERE
    else s.(edits := s.edits + paths)
  }

  ghost function MovedToEdits(s: Sets, paths: set<Path>): Sets {
    s.(byJobs := s.byJobs - paths, edits := s.edits + (s.byJobs.Keys * paths))
  }

  class ChangeSets {
    var byJobs: JobsByPath
    var edits: set<Path>
    var everywhere: bool
    var distinct: nat

    /** The counter is the size of the union of both sets until it overflows, from when both are empty. */
    ghost predicate Valid()
      reads this
    {
      if everywhere then byJobs == map[] && edits == {}
      else distinct == |byJobs.Keys + edits| <= MAX_COUNTED_CHANGES
    }

    lemma KnownBounded()
      requires Valid()
      ensures !View().everywhere ==> |View().Known()| <= MAX_COUNTED_CHANGES
    {
    }

    ghost function View(): Sets
      reads this
    {
      Sets(byJobs, edits, everywhere)
    }

    constructor ()
      ensures Valid() && View() == NOTHING
    {
      byJobs, edits, everywhere, distinct := map[], {}, false, 0;
    }

    method AddJob(paths: set<Path>, job: Job)
      requires Valid()
      modifies this
      ensures Valid() && View() == AddedJob(old(View()), paths, job)
    {
      hide *;
      var todo := paths;
      ghost var was, done := View(), {};
      KnownBounded();
      AddedJobNone(was, job);
      while todo != {}
        invariant Valid() && done + todo == paths
        invariant View() == AddedJob(was, done, job)
        decreases todo
      {
        var path :| path in todo;
        AddedJobMore(was, done, path, job);
        AddJobPath(path, job);
        todo, done := todo - {path}, done + {path};
        if everywhere {
          AddedJobSticks(was, done, paths, job);
          return;
        }
      }
      assert done == paths;
    }

    method AddJobPath(path: Path, job: Job)
      requires Valid()
      modifies this
      ensures Valid() && View() == AddedJob(old(View()), {path}, job) && everywhere == View().everywhere
    {
      hide AddedJob;
      AddedJobOne(View(), path, job);
      KnownWith(byJobs.Keys + edits, path);
      if path in byJobs {
        byJobs := byJobs[path := byJobs[path] + {job}];
      } else {
        var counts := Counts(path);
        if counts {
          byJobs := byJobs[path := {job}];
        }
      }
    }

    method AddEdits(paths: set<Path>)
      requires Valid()
      modifies this
      ensures Valid() && View() == AddedEdits(old(View()), paths)
    {
      hide *;
      var todo := paths;
      ghost var was, done := View(), {};
      KnownBounded();
      AddedEditsNone(was);
      while todo != {}
        invariant Valid() && done + todo == paths
        invariant View() == AddedEdits(was, done)
        decreases todo
      {
        var path :| path in todo;
        AddedEditsMore(was, done, path);
        AddEdit(path);
        todo, done := todo - {path}, done + {path};
        if everywhere {
          AddedEditsSticks(was, done, paths);
          return;
        }
      }
      assert done == paths;
    }

    method AddEdit(path: Path)
      requires Valid()
      modifies this
      ensures Valid() && View() == AddedEdits(old(View()), {path}) && everywhere == View().everywhere
    {
      ghost var known := byJobs.Keys + edits;
      KnownWith(known, path);
      if path !in edits {
        var counts := Counts(path);
        if counts {
          edits := edits + {path};
          assert byJobs.Keys + edits == known + {path};
        }
      } else {
        assert edits + {path} == edits;
      }
    }

    /** Moves each of `paths` a job changed to the edits. */
    method MoveToEdits(paths: set<Path>)
      requires Valid()
      modifies this
      ensures Valid() && View() == MovedToEdits(old(View()), paths)
    {
      hide *;
      var todo := paths;
      ghost var was, done := View(), {};
      MovedNone(was);
      while todo != {}
        invariant Valid() && done + todo == paths
        invariant View() == MovedToEdits(was, done)
        decreases todo
      {
        var path :| path in todo;
        MovedMore(was, done, path);
        MoveToEdit(path);
        todo, done := todo - {path}, done + {path};
      }
      assert done == paths;
    }

    method MoveToEdit(path: Path)
      requires Valid()
      modifies this
      ensures Valid() && View() == MovedToEdits(old(View()), {path})
    {
      MovedOne(View(), path);
      if path in byJobs {
        byJobs, edits := byJobs - {path}, edits + {path};
      }
      hide MovedToEdits;
    }

    method EditedEverywhere()
      modifies this
      ensures Valid() && View() == EVERYWHERE
    {
      everywhere, byJobs, edits := true, map[], {};
    }

    /** Whether the path may be added, counting it once however many sets hold it; false once past the bound. */
    method Counts(path: Path) returns (counts: bool)
      requires Valid()
      modifies this
      ensures if old(everywhere || path in byJobs.Keys + edits) then counts == !everywhere && unchanged(this)
              else if |old(byJobs.Keys + edits)| < MAX_COUNTED_CHANGES then
                counts && distinct == old(distinct) + 1 && View() == old(View())
              else !counts && Valid() && View() == EVERYWHERE
    {
      if everywhere { return false; }
      if path in byJobs || path in edits { return true; }
      distinct := distinct + 1;
      if distinct <= MAX_COUNTED_CHANGES { return true; }
      EditedEverywhere();
      return false;
    }
  }

  lemma SmallerSubset(a: set<Path>, b: set<Path>)
    requires a <= b
    ensures |a| <= |b|
  {
    assert a + (b - a) == b;
  }

  lemma KnownWith(known: set<Path>, path: Path)
    ensures |known + {path}| == if path in known then |known| else |known| + 1
  {
    assert path in known ==> known + {path} == known;
  }

  lemma WithJobOne(byJobs: JobsByPath, path: Path, job: Job)
    ensures WithJob(byJobs, {path}, job) == byJobs[path := if path in byJobs then byJobs[path] + {job} else {job}]
  {
  }

  lemma WithJobKeys(byJobs: JobsByPath, paths: set<Path>, job: Job)
    ensures WithJob(byJobs, paths, job).Keys == byJobs.Keys + paths
  {
  }

  lemma WithJobAt(byJobs: JobsByPath, paths: set<Path>, job: Job, p: Path)
    ensures Get(WithJob(byJobs, paths, job), p) ==
            if p !in paths then Get(byJobs, p) else if p in byJobs then Some(byJobs[p] + {job}) else Some({job})
  {
  }

  lemma WithJobMore(byJobs: JobsByPath, paths: set<Path>, path: Path, job: Job)
    ensures WithJob(WithJob(byJobs, paths, job), {path}, job) == WithJob(byJobs, paths + {path}, job)
  {
    hide WithJob;
    var some, both := WithJob(byJobs, paths, job), WithJob(byJobs, paths + {path}, job);
    var once := WithJob(some, {path}, job);
    forall p
      ensures Get(once, p) == Get(both, p)
    {
      WithJobAt(byJobs, paths, job, p);
      WithJobAt(byJobs, paths + {path}, job, p);
      WithJobAt(some, {path}, job, p);
      assert p in byJobs ==> byJobs[p] + {job} + {job} == byJobs[p] + {job};
      assert {job} + {job} == {job};
    }
    EqualByGet(once, both);
  }

  lemma EqualByGet<K, V>(a: map<K, V>, b: map<K, V>)
    requires forall k :: Get(a, k) == Get(b, k)
    ensures a == b
  {
    assert forall k :: k in a <==> Get(a, k).Some?;
    assert forall k :: k in b <==> Get(b, k).Some?;
    assert forall k :: k in a ==> a[k] == Get(a, k).value;
  }

  lemma AddedJobOne(s: Sets, path: Path, job: Job)
    requires !s.everywhere ==> |s.Known()| <= MAX_COUNTED_CHANGES
    ensures var byJobs := s.byJobs[path := if path in s.byJobs then s.byJobs[path] + {job} else {job}];
            && byJobs.Keys + s.edits == s.Known() + {path}
            && (path in s.Known() ==> byJobs.Keys + s.edits == s.Known())
            && AddedJob(s, {path}, job) ==
               if s.everywhere then s
               else if path !in s.Known() && |s.Known()| == MAX_COUNTED_CHANGES then EVERYWHERE
               else s.(byJobs := byJobs)
  {
    KnownWith(s.Known(), path);
    WithJobOne(s.byJobs, path, job);
    hide WithJob;
    assert path in s.Known() ==> s.Known() + {path} == s.Known();
  }

  lemma AddedJobNone(s: Sets, job: Job)
    requires !s.everywhere ==> |s.Known()| <= MAX_COUNTED_CHANGES
    ensures AddedJob(s, {}, job) == s
  {
    assert WithJob(s.byJobs, {}, job) == s.byJobs && s.Known() + {} == s.Known();
  }

  lemma AddedJobMore(s: Sets, paths: set<Path>, path: Path, job: Job)
    ensures AddedJob(AddedJob(s, paths, job), {path}, job) == AddedJob(s, paths + {path}, job)
  {
    hide WithJob;
    WithJobMore(s.byJobs, paths, path, job);
    WithJobKeys(s.byJobs, paths, job);
    var known := s.Known() + paths;
    assert s.Known() + (paths + {path}) == known + {path};
    SmallerSubset(known, known + {path});
    if !s.everywhere && |known| <= MAX_COUNTED_CHANGES {
      var t := AddedJob(s, paths, job);
      assert t == s.(byJobs := WithJob(s.byJobs, paths, job));
      assert t.Known() == known;
    }
  }

  lemma AddedJobSticks(s: Sets, some: set<Path>, all: set<Path>, job: Job)
    requires some <= all && AddedJob(s, some, job).everywhere
    ensures AddedJob(s, all, job) == AddedJob(s, some, job)
  {
    SmallerSubset(s.Known() + some, s.Known() + all);
  }

  lemma AddedEditsNone(s: Sets)
    requires !s.everywhere ==> |s.Known()| <= MAX_COUNTED_CHANGES
    ensures AddedEdits(s, {}) == s
  {
    assert s.Known() + {} == s.Known() && s.edits + {} == s.edits;
  }

  lemma AddedEditsMore(s: Sets, paths: set<Path>, path: Path)
    ensures AddedEdits(AddedEdits(s, paths), {path}) == AddedEdits(s, paths + {path})
  {
    var known := s.Known() + paths;
    assert s.Known() + (paths + {path}) == known + {path};
    SmallerSubset(known, known + {path});
    if !s.everywhere && |known| <= MAX_COUNTED_CHANGES {
      var t := AddedEdits(s, paths);
      assert t == s.(edits := s.edits + paths) && t.Known() == known;
      assert s.edits + paths + {path} == s.edits + (paths + {path});
    }
  }

  lemma AddedEditsSticks(s: Sets, some: set<Path>, all: set<Path>)
    requires some <= all && AddedEdits(s, some).everywhere
    ensures AddedEdits(s, all) == AddedEdits(s, some)
  {
    SmallerSubset(s.Known() + some, s.Known() + all);
  }

  lemma MovedNone(s: Sets)
    ensures MovedToEdits(s, {}) == s
  {
    assert s.byJobs - {} == s.byJobs && s.edits + (s.byJobs.Keys * {}) == s.edits;
  }

  lemma MovedOne(s: Sets, path: Path)
    ensures MovedToEdits(s, {path}) ==
            if path in s.byJobs then s.(byJobs := s.byJobs - {path}, edits := s.edits + {path}) else s
    ensures MovedToEdits(s, {path}).Known() == s.Known()
  {
    assert path !in s.byJobs ==> s.byJobs - {path} == s.byJobs && s.byJobs.Keys * {path} == {};
    assert path in s.byJobs ==> s.byJobs.Keys * {path} == {path};
  }

  lemma MovedMore(s: Sets, paths: set<Path>, path: Path)
    ensures MovedToEdits(MovedToEdits(s, paths), {path}) == MovedToEdits(s, paths + {path})
  {
    assert s.byJobs - paths - {path} == s.byJobs - (paths + {path});
    assert s.byJobs.Keys * (paths + {path}) == s.byJobs.Keys * paths + (s.byJobs - paths).Keys * {path};
  }
}
