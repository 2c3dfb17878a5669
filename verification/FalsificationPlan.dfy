/** Which waiting defect definitions a falsification job may take next, and what the plan remembers of those it took. */
module FalsificationPlans {
  import opened Options

  datatype Mutation = Mutation(old_: string, new_: string)

  /** A definition's standing as the plan reads it; `state` is the state's place in the listing order. */
  datatype Standing = Standing(
    state: nat, eligible: bool, evidenceCurrent: Option<bool>, digest: Option<string>, id: Option<string>,
    workspacePath: Option<string>, mutation: Option<Mutation>, mutationPath: Option<string>, file: string,
    position: nat)

  datatype Experiment = Experiment(defectId: string, mutation: Mutation, mutationPath: string)

  datatype JobDefinition = JobDefinition(id: string, digest: string, state: nat, experiment: Experiment)
  datatype PlannedJob = PlannedJob(workspacePath: string, definitions: seq<JobDefinition>)

  /** A waiting definition. */
  datatype Candidate = Candidate(definition: JobDefinition, standing: Standing, workspacePath: string)

  datatype Look = Job(job: PlannedJob) | NothingWaiting | NoneTaken(firstAtRevision: bool)

  datatype Mark = Mark(
    id: string, workspacePath: string, heldAt: Option<nat>, reason: Option<string>, takenLast: bool,
    endedRunning: bool)

  datatype WorkspaceMark = WorkspaceMark(revision: nat, reason: string)

  type Marks = map<string, Mark>
  type WorkspaceMarks = map<string, WorkspaceMark>

  const TIME_BOUND := "time-bound"
  const REPEATED_INPUT_CHANGE := "repeated-input-change"

  /** A definition waits when it is eligible and holds no evidence that reads current. */
  function CandidateOf(s: Standing): Option<Candidate> {
    if !s.eligible || s.evidenceCurrent == Some(true) then None
    else if s.digest.None? || s.id.None? || s.workspacePath.None? || s.mutation.None? || s.mutationPath.None? then None
    else
      Some(Candidate(
        JobDefinition(s.id.value, s.digest.value, s.state,
                      Experiment(s.id.value, s.mutation.value, s.mutationPath.value)),
        s, s.workspacePath.value))
  }

  function Candidates(standings: seq<Standing>): (waiting: seq<Candidate>)
    ensures forall c :: c in waiting ==> c.standing in standings && CandidateOf(c.standing) == Some(c)
    ensures forall s :: s in standings && CandidateOf(s).Some? ==> CandidateOf(s).value in waiting
  {
    if standings == [] then []
    else
      var first := CandidateOf(standings[0]);
      (if first.Some? then [first.value] else []) + Candidates(standings[1..])
  }

  predicate MayTake(definitions: Marks, workspaces: WorkspaceMarks, c: Candidate, revision: nat) {
    && !(c.workspacePath in workspaces && workspaces[c.workspacePath].revision == revision)
    && !(c.definition.digest in definitions && definitions[c.definition.digest].heldAt == Some(revision))
  }

  predicate TakenLast(definitions: Marks, c: Candidate) {
    c.definition.digest in definitions && definitions[c.definition.digest].takenLast
  }

  predicate TextBefore(a: string, b: string) {
    b != [] && (a == [] || a[0] < b[0] || (a[0] == b[0] && TextBefore(a[1..], b[1..])))
  }

  function CurrentRank(s: Standing): nat {
    if s.evidenceCurrent == Some(true) then 1 else 0
  }

  /**
   * The order a listing of standings takes: negative, zero or positive as `left` comes before, with or after
   * `right`.
   */
  function CompareStandings(left: Standing, right: Standing): int {
    if left.state != right.state then left.state - right.state
    else if CurrentRank(left) != CurrentRank(right) then CurrentRank(left) - CurrentRank(right)
    else if left.file != right.file then (if TextBefore(left.file, right.file) then -1 else 1)
    else left.position - right.position
  }

  /** Those taken last after all others, each part in the order of the standings. */
  function Compare(definitions: Marks, left: Candidate, right: Candidate): int {
    if TakenLast(definitions, left) != TakenLast(definitions, right)
    then (if TakenLast(definitions, left) then 1 else -1)
    else CompareStandings(left.standing, right.standing)
  }

  lemma {:induction false} TextBeforeTotal(a: string, b: string)
    ensures a != b ==> (TextBefore(a, b) <==> !TextBefore(b, a))
    ensures !TextBefore(a, a)
  {
    if a != [] && b != [] {
      TextBeforeTotal(a[1..], b[1..]);
      assert a == [a[0]] + a[1..] && b == [b[0]] + b[1..];
    }
    if a != [] { TextBeforeTotal(a[1..], a[1..]); }
  }

  lemma {:induction false} TextBeforeTransitive(a: string, b: string, c: string)
    requires TextBefore(a, b) && TextBefore(b, c)
    ensures TextBefore(a, c)
  {
    if a != [] && a[0] == b[0] == c[0] {
      TextBeforeTransitive(a[1..], b[1..], c[1..]);
    }
  }

  /** The comparison is a total preorder, so sorting by it is well defined. */
  lemma ComparesTotally(definitions: Marks, a: Candidate, b: Candidate, c: Candidate)
    ensures Compare(definitions, a, b) < 0 <==> Compare(definitions, b, a) > 0
    ensures Compare(definitions, a, b) <= 0 && Compare(definitions, b, c) <= 0 ==> Compare(definitions, a, c) <= 0
  {
    TextBeforeTotal(a.standing.file, b.standing.file);
    TextBeforeTotal(b.standing.file, c.standing.file);
    TextBeforeTotal(a.standing.file, c.standing.file);
    if TextBefore(a.standing.file, b.standing.file) && TextBefore(b.standing.file, c.standing.file) {
      TextBeforeTransitive(a.standing.file, b.standing.file, c.standing.file);
    }
    hide TextBefore;
  }

  function Insert(definitions: Marks, c: Candidate, sorted: seq<Candidate>): seq<Candidate> {
    if sorted == [] then [c]
    else if Compare(definitions, c, sorted[0]) < 0 then [c] + sorted
    else [sorted[0]] + Insert(definitions, c, sorted[1..])
  }

  /** A stable sort by `Compare`. */
  function Sorted(definitions: Marks, cs: seq<Candidate>): seq<Candidate> {
    if cs == [] then [] else Insert(definitions, cs[|cs| - 1], Sorted(definitions, cs[..|cs| - 1]))
  }

  ghost predicate InOrder(definitions: Marks, cs: seq<Candidate>) {
    forall i, j :: 0 <= i < j < |cs| ==> Compare(definitions, cs[i], cs[j]) <= 0
  }

  lemma {:induction false} InsertKeeps(definitions: Marks, c: Candidate, sorted: seq<Candidate>)
    ensures multiset(Insert(definitions, c, sorted)) == multiset(sorted) + multiset{c}
  {
    hide Compare;
    if sorted != [] {
      assert sorted == [sorted[0]] + sorted[1..];
      InsertKeeps(definitions, c, sorted[1..]);
    }
  }

  lemma {:induction false} InsertSorts(definitions: Marks, c: Candidate, sorted: seq<Candidate>)
    requires InOrder(definitions, sorted)
    ensures InOrder(definitions, Insert(definitions, c, sorted))
  {
    if sorted != [] {
      ComparesTotally(definitions, c, sorted[0], c);
      var rest := Insert(definitions, c, sorted[1..]);
      assert InOrder(definitions, sorted[1..]);
      hide Compare, InOrder;
      if Compare(definitions, c, sorted[0]) < 0 {
        PrependSorts(definitions, c, sorted);
      } else {
        InsertSorts(definitions, c, sorted[1..]);
        InsertKeeps(definitions, c, sorted[1..]);
        forall x | x in rest
          ensures Compare(definitions, sorted[0], x) <= 0
        {
          assert x in multiset(rest);
          if x != c { FirstBefore(definitions, sorted, x); }
        }
        OrderFrom(definitions, sorted[0], rest);
      }
    }
  }

  lemma FirstBefore(definitions: Marks, sorted: seq<Candidate>, x: Candidate)
    requires sorted != [] && InOrder(definitions, sorted) && x in sorted[1..]
    ensures Compare(definitions, sorted[0], x) <= 0
  {
    hide Compare;
    var k :| 0 <= k < |sorted[1..]| && sorted[1..][k] == x;
    assert sorted[k + 1] == x;
  }

  lemma OrderFrom(definitions: Marks, first: Candidate, rest: seq<Candidate>)
    requires InOrder(definitions, rest) && forall x :: x in rest ==> Compare(definitions, first, x) <= 0
    ensures InOrder(definitions, [first] + rest)
  {
    hide Compare;
  }

  lemma PrependSorts(definitions: Marks, c: Candidate, sorted: seq<Candidate>)
    requires InOrder(definitions, sorted) && sorted != [] && Compare(definitions, c, sorted[0]) <= 0
    ensures InOrder(definitions, [c] + sorted)
  {
    hide Compare;
    forall j | 0 <= j < |sorted|
      ensures Compare(definitions, c, sorted[j]) <= 0
    {
      if j > 0 { ComparesTotally(definitions, c, sorted[0], sorted[j]); }
    }
  }

  lemma {:induction false} SortedSorts(definitions: Marks, cs: seq<Candidate>)
    ensures InOrder(definitions, Sorted(definitions, cs))
    ensures multiset(Sorted(definitions, cs)) == multiset(cs)
  {
    if cs != [] {
      SortedSorts(definitions, cs[..|cs| - 1]);
      InsertSorts(definitions, cs[|cs| - 1], Sorted(definitions, cs[..|cs| - 1]));
      InsertKeeps(definitions, cs[|cs| - 1], Sorted(definitions, cs[..|cs| - 1]));
      assert cs == cs[..|cs| - 1] + [cs[|cs| - 1]];
    }
  }

  /** The candidates `keep` says, in order. */
  function Filter(cs: seq<Candidate>, keep: Candidate -> bool): (kept: seq<Candidate>)
    ensures forall c :: c in kept <==> c in cs && keep(c)
  {
    if cs == [] then [] else (if keep(cs[0]) then [cs[0]] else []) + Filter(cs[1..], keep)
  }

  function FirstDefinitions(cs: seq<Candidate>, bound: nat): (definitions: seq<JobDefinition>)
    ensures |definitions| == if |cs| <= bound then |cs| else bound
    ensures forall i :: 0 <= i < |definitions| ==> definitions[i] == cs[i].definition
  {
    if cs == [] || bound == 0 then [] else [cs[0].definition] + FirstDefinitions(cs[1..], bound - 1)
  }

  /** The workspace gets no further job, or the definition no further experiment, at the revision. */
  type Taking = set<(string, string)>

  /** What may be taken, by digest and workspace. */
  ghost function Takeable(definitions: Marks, workspaces: WorkspaceMarks, waiting: seq<Candidate>, revision: nat): Taking {
    set c | c in waiting && MayTake(definitions, workspaces, c, revision) :: (c.definition.digest, c.workspacePath)
  }

  /** The job is one a look may take: definitions of one workspace, each of a takeable candidate. */
  ghost predicate JobOf(
    job: PlannedJob, definitions: Marks, workspaces: WorkspaceMarks, waiting: seq<Candidate>, revision: nat)
  {
    && job.definitions != []
    && forall d :: d in job.definitions ==>
         exists c :: c in waiting && c.definition == d && c.workspacePath == job.workspacePath
                     && MayTake(definitions, workspaces, c, revision)
  }

  /** The job's first definition comes before every takeable one, so one taken last heads it only when all are. */
  ghost predicate HeadsJob(
    job: PlannedJob, definitions: Marks, workspaces: WorkspaceMarks, waiting: seq<Candidate>, revision: nat)
    requires job.definitions != []
  {
    exists first ::
      && first in waiting && MayTake(definitions, workspaces, first, revision)
      && first.definition == job.definitions[0] && first.workspacePath == job.workspacePath
      && forall c :: c in waiting && MayTake(definitions, workspaces, c, revision) ==>
           && Compare(definitions, first, c) <= 0
           && (TakenLast(definitions, first) ==> TakenLast(definitions, c))
  }

  function Taker(definitions: Marks, workspaces: WorkspaceMarks, revision: nat): Candidate -> bool {
    (c: Candidate) => MayTake(definitions, workspaces, c, revision)
  }

  function OfWorkspace(workspacePath: string): Candidate -> bool {
    (c: Candidate) => c.workspacePath == workspacePath
  }

  function TakeableInOrder(
    definitions: Marks, workspaces: WorkspaceMarks, waiting: seq<Candidate>, revision: nat): seq<Candidate>
  {
    Sorted(definitions, Filter(waiting, Taker(definitions, workspaces, revision)))
  }

  function JobFrom(takeable: seq<Candidate>, bound: nat): PlannedJob
    requires takeable != []
  {
    var workspacePath := takeable[0].workspacePath;
    PlannedJob(workspacePath, FirstDefinitions(Filter(takeable, OfWorkspace(workspacePath)), bound))
  }

  lemma TakeableFirst(
      definitions: Marks, workspaces: WorkspaceMarks, waiting: seq<Candidate>, revision: nat, bound: nat)
    requires bound > 0
    ensures var takeable := TakeableInOrder(definitions, workspaces, waiting, revision);
            && (takeable == [] ==> Takeable(definitions, workspaces, waiting, revision) == {})
            && (takeable != [] ==>
                  var job := JobFrom(takeable, bound);
                  && 0 < |job.definitions| <= bound
                  && JobOf(job, definitions, workspaces, waiting, revision)
                  && HeadsJob(job, definitions, workspaces, waiting, revision))
  {
    var free := Filter(waiting, Taker(definitions, workspaces, revision));
    var takeable := TakeableInOrder(definitions, workspaces, waiting, revision);
    SortedMembers(definitions, free);
    SortedSorts(definitions, free);
    hide Sorted, Compare, MayTake;
    assert forall c :: c in takeable <==> c in waiting && MayTake(definitions, workspaces, c, revision);
    if takeable != [] {
      JobOfTakeable(takeable, definitions, workspaces, waiting, revision, bound);
      FirstHeads(takeable, definitions, workspaces, waiting, revision, bound);
    }
  }

  lemma JobOfTakeable(
      takeable: seq<Candidate>, definitions: Marks, workspaces: WorkspaceMarks, waiting: seq<Candidate>, revision: nat,
      bound: nat)
    requires takeable != [] && bound > 0
    requires forall c :: c in takeable <==> c in waiting && MayTake(definitions, workspaces, c, revision)
    ensures var job := JobFrom(takeable, bound);
            && 0 < |job.definitions| <= bound && job.definitions[0] == takeable[0].definition
            && JobOf(job, definitions, workspaces, waiting, revision)
  {
    hide MayTake;
    var sameWorkspace := OfWorkspace(takeable[0].workspacePath);
    FilterHead(takeable, sameWorkspace);
    var ofWorkspace := Filter(takeable, sameWorkspace);
    var job := JobFrom(takeable, bound);
    assert job.definitions == FirstDefinitions(ofWorkspace, bound);
    forall d | d in job.definitions
      ensures exists c :: c in waiting && c.definition == d && c.workspacePath == job.workspacePath
                       && MayTake(definitions, workspaces, c, revision)
    {
      var i :| 0 <= i < |job.definitions| && job.definitions[i] == d;
      assert ofWorkspace[i] in ofWorkspace;
    }
  }

  lemma FirstHeads(
      takeable: seq<Candidate>, definitions: Marks, workspaces: WorkspaceMarks, waiting: seq<Candidate>, revision: nat,
      bound: nat)
    requires takeable != [] && bound > 0 && InOrder(definitions, takeable)
    requires forall c :: c in takeable <==> c in waiting && MayTake(definitions, workspaces, c, revision)
    requires var job := JobFrom(takeable, bound);
             job.definitions != [] && job.definitions[0] == takeable[0].definition
    ensures HeadsJob(JobFrom(takeable, bound), definitions, workspaces, waiting, revision)
  {
    hide MayTake, CompareStandings, Filter, FirstDefinitions;
    var first := takeable[0];
    assert first in takeable;
    forall c | c in takeable
      ensures Compare(definitions, first, c) <= 0
    {
      var i :| 0 <= i < |takeable| && takeable[i] == c;
      ComparesTotally(definitions, first, first, first);
    }
  }

  /** The places the standings' order puts before others: by the comparison, and equal ones as they were listed. */
  predicate Before(definitions: Marks, waiting: seq<Candidate>, i: nat, j: nat) {
    && i < |waiting| && j < |waiting|
    && var compared := Compare(definitions, waiting[i], waiting[j]);
       compared < 0 || (compared == 0 && i < j)
  }

  ghost predicate Ranked(definitions: Marks, waiting: seq<Candidate>, places: seq<nat>) {
    forall k, l :: 0 <= k < l < |places| ==> Before(definitions, waiting, places[k], places[l])
  }

  ghost predicate AsListed(places: seq<nat>) {
    forall k, l :: 0 <= k < l < |places| ==> places[k] < places[l]
  }

  ghost predicate Within(places: seq<nat>, waiting: seq<Candidate>) {
    forall k :: 0 <= k < |places| ==> places[k] < |waiting|
  }

  ghost function At(waiting: seq<Candidate>, places: seq<nat>): (picked: seq<Candidate>)
    requires Within(places, waiting)
    ensures |picked| == |places| && forall k :: 0 <= k < |places| ==> picked[k] == waiting[places[k]]
  {
    if places == [] then [] else At(waiting, places[..|places| - 1]) + [waiting[places[|places| - 1]]]
  }

  /** The places in order once the last is put before the first it comes before. */
  ghost function PlaceInto(definitions: Marks, waiting: seq<Candidate>, i: nat, places: seq<nat>): (placed: seq<nat>)
    requires i < |waiting| && Within(places, waiting)
    ensures Within(placed, waiting)
  {
    if places == [] then [i]
    else if Compare(definitions, waiting[i], waiting[places[0]]) < 0 then [i] + places
    else [places[0]] + PlaceInto(definitions, waiting, i, places[1..])
  }

  ghost function OrderOf(definitions: Marks, waiting: seq<Candidate>, places: seq<nat>): (order: seq<nat>)
    requires Within(places, waiting)
    ensures Within(order, waiting)
  {
    if places == [] then []
    else
      PlaceInto(definitions, waiting, places[|places| - 1], OrderOf(definitions, waiting, places[..|places| - 1]))
  }

  lemma {:induction false} PlaceIntoKeeps(definitions: Marks, waiting: seq<Candidate>, i: nat, places: seq<nat>)
    requires i < |waiting| && Within(places, waiting)
    ensures var placed := PlaceInto(definitions, waiting, i, places);
            multiset(placed) == multiset(places) + multiset{i}
  {
    hide Compare;
    if places != [] {
      var rest := PlaceInto(definitions, waiting, i, places[1..]);
      PlaceIntoKeeps(definitions, waiting, i, places[1..]);
      hide PlaceInto, Within;
      CountsFirst(places[0], places[1..]);
      CountsFirst(places[0], rest);
      CountsFirst(i, places);
      assert places == [places[0]] + places[1..];
      PlaceIntoCases(definitions, waiting, i, places);
    }
  }

  lemma PlaceIntoCases(definitions: Marks, waiting: seq<Candidate>, i: nat, places: seq<nat>)
    requires i < |waiting| && Within(places, waiting) && places != []
    ensures var placed := PlaceInto(definitions, waiting, i, places);
            placed == [i] + places || placed == [places[0]] + PlaceInto(definitions, waiting, i, places[1..])
  {
    hide Compare;
  }

  lemma CountsFirst(first: nat, rest: seq<nat>)
    ensures multiset([first] + rest) == multiset{first} + multiset(rest)
  {
  }

  lemma {:induction false} PlaceIntoInserts(definitions: Marks, waiting: seq<Candidate>, i: nat, places: seq<nat>)
    requires i < |waiting| && Within(places, waiting)
    ensures At(waiting, PlaceInto(definitions, waiting, i, places)) ==
            Insert(definitions, waiting[i], At(waiting, places))
  {
    if places != [] {
      var rest := PlaceInto(definitions, waiting, i, places[1..]);
      PlaceIntoInserts(definitions, waiting, i, places[1..]);
      AtTail(waiting, places);
      AtPrepend(waiting, places[0], rest);
      AtPrepend(waiting, i, places);
      hide Compare, At, Within;
    } else {
      AtPrepend(waiting, i, []);
      hide Compare, Within;
    }
  }

  lemma AtIs(waiting: seq<Candidate>, places: seq<nat>)
    requires Within(places, waiting)
    ensures |At(waiting, places)| == |places|
    ensures forall k :: 0 <= k < |places| ==> At(waiting, places)[k] == waiting[places[k]]
  {
  }

  /** Placing one listed behind all the others keeps them in order, equal ones as listed. */
  lemma {:induction false} PlaceIntoOrders(definitions: Marks, waiting: seq<Candidate>, i: nat, places: seq<nat>)
    requires i < |waiting| && Within(places, waiting) && forall k :: 0 <= k < |places| ==> places[k] < i
    requires Ranked(definitions, waiting, places)
    ensures Ranked(definitions, waiting, PlaceInto(definitions, waiting, i, places))
  {
    if places != [] {
      var placed := PlaceInto(definitions, waiting, i, places);
      if Compare(definitions, waiting[i], waiting[places[0]]) < 0 {
        forall k | 0 <= k < |places|
          ensures Before(definitions, waiting, i, places[k])
        {
          BeforeFirst(definitions, waiting, i, places, k);
        }
        RankedFrom(definitions, waiting, i, places);
      } else {
        RankedTail(definitions, waiting, places);
        PlaceIntoOrders(definitions, waiting, i, places[1..]);
        var rest := PlaceInto(definitions, waiting, i, places[1..]);
        PlaceIntoKeeps(definitions, waiting, i, places[1..]);
        NotBefore(definitions, waiting, i, places[0]);
        hide *;
        forall k | 0 <= k < |rest|
          ensures Before(definitions, waiting, places[0], rest[k])
        {
          assert rest[k] in multiset(rest);
          if rest[k] != i {
            var l :| 0 <= l < |places[1..]| && places[1..][l] == rest[k];
            RankedAt(definitions, waiting, places, l + 1);
          }
        }
        RankedFrom(definitions, waiting, places[0], rest);
        PlaceIntoIs(definitions, waiting, i, places);
      }
    } else {
      RankedFrom(definitions, waiting, i, []);
    }
  }

  lemma PlaceIntoIs(definitions: Marks, waiting: seq<Candidate>, i: nat, places: seq<nat>)
    requires i < |waiting| && Within(places, waiting) && places != []
    requires Compare(definitions, waiting[i], waiting[places[0]]) >= 0
    ensures PlaceInto(definitions, waiting, i, places) == [places[0]] + PlaceInto(definitions, waiting, i, places[1..])
  {
    hide Compare;
  }

  lemma RankedAt(definitions: Marks, waiting: seq<Candidate>, places: seq<nat>, k: nat)
    requires Ranked(definitions, waiting, places) && 0 < k < |places|
    ensures Before(definitions, waiting, places[0], places[k])
  {
    hide Before;
  }

  lemma RankedTail(definitions: Marks, waiting: seq<Candidate>, places: seq<nat>)
    requires Ranked(definitions, waiting, places) && places != []
    ensures Ranked(definitions, waiting, places[1..])
  {
    hide Before;
  }

  lemma RankedFrom(definitions: Marks, waiting: seq<Candidate>, first: nat, rest: seq<nat>)
    requires Ranked(definitions, waiting, rest)
    requires forall k :: 0 <= k < |rest| ==> Before(definitions, waiting, first, rest[k])
    ensures Ranked(definitions, waiting, [first] + rest)
  {
    hide Before;
  }

  lemma NotBefore(definitions: Marks, waiting: seq<Candidate>, i: nat, first: nat)
    requires first < i < |waiting| && Compare(definitions, waiting[i], waiting[first]) >= 0
    ensures Before(definitions, waiting, first, i)
  {
    hide Compare;
    ComparesTotally(definitions, waiting[i], waiting[first], waiting[i]);
    ComparesTotally(definitions, waiting[first], waiting[i], waiting[i]);
  }

  lemma BeforeFirst(definitions: Marks, waiting: seq<Candidate>, i: nat, places: seq<nat>, k: nat)
    requires i < |waiting| && Within(places, waiting) && k < |places| && Ranked(definitions, waiting, places)
    requires Compare(definitions, waiting[i], waiting[places[0]]) < 0
    ensures Before(definitions, waiting, i, places[k])
  {
    hide Compare;
    var first, c, other := waiting[places[0]], waiting[i], waiting[places[k]];
    if k > 0 {
      assert Before(definitions, waiting, places[0], places[k]);
      ComparesTotally(definitions, first, other, c);
      ComparesTotally(definitions, other, c, first);
      ComparesTotally(definitions, c, first, other);
      ComparesTotally(definitions, c, other, first);
    }
  }

  /** The sort puts the candidates in order, and those that compare equal as they were listed. */
  lemma {:induction false} SortedStably(definitions: Marks, waiting: seq<Candidate>, places: seq<nat>)
    requires Within(places, waiting) && AsListed(places)
    ensures var order := OrderOf(definitions, waiting, places);
            && multiset(order) == multiset(places) && Ranked(definitions, waiting, order)
            && Sorted(definitions, At(waiting, places)) == At(waiting, order)
  {
    if places != [] {
      hide *;
      var front, last := places[..|places| - 1], places[|places| - 1];
      ListedFront(waiting, places);
      var order := OrderOf(definitions, waiting, front);
      OrderIs(definitions, waiting, places);
      AtFront(waiting, places);
      SortedIs(definitions, At(waiting, places));
      SortedStably(definitions, waiting, front);
      StillBelow(front, order, last);
      PlaceIntoOrders(definitions, waiting, last, order);
      PlaceIntoInserts(definitions, waiting, last, order);
      PlaceIntoKeeps(definitions, waiting, last, order);
      CountsLast(front, last);
      assert places == front + [last];
    } else {
      NoneSorted(definitions, waiting);
    }
  }

  lemma NoneSorted(definitions: Marks, waiting: seq<Candidate>)
    ensures Within([], waiting) && OrderOf(definitions, waiting, []) == [] && Ranked(definitions, waiting, [])
    ensures At(waiting, []) == [] && Sorted(definitions, []) == []
  {
  }

  lemma ListedFront(waiting: seq<Candidate>, places: seq<nat>)
    requires Within(places, waiting) && AsListed(places) && places != []
    ensures var front, last := places[..|places| - 1], places[|places| - 1];
            && Within(front, waiting) && AsListed(front) && last < |waiting|
            && forall k :: 0 <= k < |front| ==> front[k] < last
  {
  }

  lemma OrderIs(definitions: Marks, waiting: seq<Candidate>, places: seq<nat>)
    requires Within(places, waiting) && places != [] && Within(places[..|places| - 1], waiting)
    requires places[|places| - 1] < |waiting|
    ensures OrderOf(definitions, waiting, places) ==
            PlaceInto(definitions, waiting, places[|places| - 1], OrderOf(definitions, waiting, places[..|places| - 1]))
  {
    hide PlaceInto;
  }

  lemma StillBelow(front: seq<nat>, order: seq<nat>, last: nat)
    requires multiset(order) == multiset(front) && forall k :: 0 <= k < |front| ==> front[k] < last
    ensures forall k :: 0 <= k < |order| ==> order[k] < last
  {
    forall k | 0 <= k < |order|
      ensures order[k] < last
    {
      assert order[k] in multiset(order);
      var l :| 0 <= l < |front| && front[l] == order[k];
    }
  }

  lemma CountsLast(front: seq<nat>, last: nat)
    ensures multiset(front + [last]) == multiset(front) + multiset{last}
  {
  }

  lemma SortedIs(definitions: Marks, cs: seq<Candidate>)
    requires cs != []
    ensures Sorted(definitions, cs) == Insert(definitions, cs[|cs| - 1], Sorted(definitions, cs[..|cs| - 1]))
  {
    hide Insert;
  }

  lemma AtFront(waiting: seq<Candidate>, places: seq<nat>)
    requires Within(places, waiting) && places != []
    ensures var at, n := At(waiting, places), |places| - 1;
            |at| == n + 1 && at[..n] == At(waiting, places[..n]) && at[n] == waiting[places[n]]
  {
  }

  ghost function KeptPlaces(waiting: seq<Candidate>, places: seq<nat>, keep: Candidate -> bool): (kept: seq<nat>)
    requires Within(places, waiting)
    ensures Within(kept, waiting) && forall p :: p in kept <==> p in places && keep(waiting[p])
  {
    if places == [] then []
    else (if keep(waiting[places[0]]) then [places[0]] else []) + KeptPlaces(waiting, places[1..], keep)
  }

  lemma {:induction false} KeptFilters(waiting: seq<Candidate>, places: seq<nat>, keep: Candidate -> bool)
    requires Within(places, waiting)
    ensures At(waiting, KeptPlaces(waiting, places, keep)) == Filter(At(waiting, places), keep)
  {
    hide At;
    if places != [] {
      KeptFilters(waiting, places[1..], keep);
      AtTail(waiting, places);
      AtPrepend(waiting, places[0], KeptPlaces(waiting, places[1..], keep));
      assert [] + KeptPlaces(waiting, places[1..], keep) == KeptPlaces(waiting, places[1..], keep);
    } else {
      AtIs(waiting, places);
    }
  }

  lemma {:induction false} KeptAsListed(waiting: seq<Candidate>, places: seq<nat>, keep: Candidate -> bool)
    requires Within(places, waiting) && AsListed(places)
    ensures AsListed(KeptPlaces(waiting, places, keep))
  {
    if places != [] {
      var rest := KeptPlaces(waiting, places[1..], keep);
      KeptAsListed(waiting, places[1..], keep);
      KeptCases(waiting, places, keep);
      forall k | 0 <= k < |rest|
        ensures places[0] < rest[k]
      {
        var l := KeptFrom(waiting, places, keep, k);
      }
      hide KeptPlaces;
    }
  }

  lemma {:induction false} KeptRanked(
      definitions: Marks, waiting: seq<Candidate>, places: seq<nat>, keep: Candidate -> bool)
    requires Within(places, waiting) && Ranked(definitions, waiting, places)
    ensures Ranked(definitions, waiting, KeptPlaces(waiting, places, keep))
  {
    if places != [] {
      var rest := KeptPlaces(waiting, places[1..], keep);
      RankedTail(definitions, waiting, places);
      KeptRanked(definitions, waiting, places[1..], keep);
      KeptCases(waiting, places, keep);
      hide *;
      forall k | 0 <= k < |rest|
        ensures Before(definitions, waiting, places[0], rest[k])
      {
        var l := KeptFrom(waiting, places, keep, k);
        RankedAt(definitions, waiting, places, l);
      }
      RankedFrom(definitions, waiting, places[0], rest);
    }
  }

  lemma KeptCases(waiting: seq<Candidate>, places: seq<nat>, keep: Candidate -> bool)
    requires Within(places, waiting) && places != []
    ensures Within(places[1..], waiting)
    ensures var kept, rest := KeptPlaces(waiting, places, keep), KeptPlaces(waiting, places[1..], keep);
            kept == [places[0]] + rest || kept == rest
  {
    assert [] + KeptPlaces(waiting, places[1..], keep) == KeptPlaces(waiting, places[1..], keep);
  }

  lemma KeptFrom(waiting: seq<Candidate>, places: seq<nat>, keep: Candidate -> bool, k: nat) returns (l: nat)
    requires Within(places, waiting) && places != [] && Within(places[1..], waiting)
    requires k < |KeptPlaces(waiting, places[1..], keep)|
    ensures 0 < l < |places| && places[l] == KeptPlaces(waiting, places[1..], keep)[k]
  {
    var rest, p := places[1..], KeptPlaces(waiting, places[1..], keep)[k];
    assert p in KeptPlaces(waiting, rest, keep);
    var n :| 0 <= n < |rest| && rest[n] == p;
    l := n + 1;
  }

  lemma AtTail(waiting: seq<Candidate>, places: seq<nat>)
    requires Within(places, waiting) && places != []
    ensures At(waiting, places)[1..] == At(waiting, places[1..]) && At(waiting, places)[0] == waiting[places[0]]
  {
    AtIs(waiting, places);
    AtIs(waiting, places[1..]);
  }

  lemma AtPrepend(waiting: seq<Candidate>, first: nat, rest: seq<nat>)
    requires first < |waiting| && Within(rest, waiting)
    ensures At(waiting, [first] + rest) == [waiting[first]] + At(waiting, rest)
  {
    AtIs(waiting, [first] + rest);
    AtIs(waiting, rest);
  }

  ghost predicate FreeAt(
    definitions: Marks, workspaces: WorkspaceMarks, waiting: seq<Candidate>, revision: nat, i: nat)
  {
    i < |waiting| && MayTake(definitions, workspaces, waiting[i], revision)
  }

  /**
   * The job takes what stands at these places, in this order: all of them may be taken and are of its workspace, none
   * that may be taken comes before the first, and none of the workspace is left out but behind all of these when they
   * fill the job.
   */
  ghost predicate TakesPlaces(
    job: PlannedJob, places: seq<nat>, definitions: Marks, workspaces: WorkspaceMarks, waiting: seq<Candidate>,
    revision: nat, bound: nat)
  {
    && places != [] && Within(places, waiting) && |places| == |job.definitions| <= bound
    && Ranked(definitions, waiting, places)
    && (forall k :: 0 <= k < |places| ==>
          && FreeAt(definitions, workspaces, waiting, revision, places[k])
          && waiting[places[k]].workspacePath == job.workspacePath
          && waiting[places[k]].definition == job.definitions[k])
    && (forall i: nat :: FreeAt(definitions, workspaces, waiting, revision, i) && i != places[0] ==>
          Before(definitions, waiting, places[0], i))
    && (forall i: nat ::
          FreeAt(definitions, workspaces, waiting, revision, i) && waiting[i].workspacePath == job.workspacePath ==>
            || i in places
            || (|places| == bound && forall k :: 0 <= k < |places| ==> Before(definitions, waiting, places[k], i)))
  }

  ghost predicate TakesFirst(
    job: PlannedJob, definitions: Marks, workspaces: WorkspaceMarks, waiting: seq<Candidate>, revision: nat, bound: nat)
  {
    exists places :: TakesPlaces(job, places, definitions, workspaces, waiting, revision, bound)
  }

  ghost function AllPlaces(n: nat): (places: seq<nat>)
    ensures |places| == n && forall k :: 0 <= k < n ==> places[k] == k
  {
    if n == 0 then [] else AllPlaces(n - 1) + [n - 1]
  }

  /** The takeable places in order. */
  ghost function FreePlaces(
    definitions: Marks, workspaces: WorkspaceMarks, waiting: seq<Candidate>, revision: nat): (order: seq<nat>)
    ensures Within(order, waiting)
  {
    OrderOf(definitions, waiting,
            KeptPlaces(waiting, AllPlaces(|waiting|), Taker(definitions, workspaces, revision)))
  }

  lemma FreePlacesAre(definitions: Marks, workspaces: WorkspaceMarks, waiting: seq<Candidate>, revision: nat)
    ensures var order := FreePlaces(definitions, workspaces, waiting, revision);
            && At(waiting, order) == TakeableInOrder(definitions, workspaces, waiting, revision)
            && Ranked(definitions, waiting, order)
            && forall i :: i in order <==> FreeAt(definitions, workspaces, waiting, revision, i)
  {
    var keep, all := Taker(definitions, workspaces, revision), AllPlaces(|waiting|);
    var free := KeptPlaces(waiting, all, keep);
    AllAre(waiting);
    var order := OrderOf(definitions, waiting, free);
    assert order == FreePlaces(definitions, workspaces, waiting, revision);
    assert TakeableInOrder(definitions, workspaces, waiting, revision) == Sorted(definitions, Filter(waiting, keep));
    TakerTakes(definitions, workspaces, waiting, revision);
    hide *;
    KeptAsListed(waiting, all, keep);
    KeptFilters(waiting, all, keep);
    SortedStably(definitions, waiting, free);
    forall i
      ensures i in order <==> FreeAt(definitions, workspaces, waiting, revision, i)
    {
      assert i in multiset(order) <==> i in multiset(free);
      assert i in free <==> FreeAt(definitions, workspaces, waiting, revision, i);
    }
  }

  lemma AllAre(waiting: seq<Candidate>)
    ensures var all := AllPlaces(|waiting|); Within(all, waiting) && AsListed(all) && At(waiting, all) == waiting
  {
    AtIs(waiting, AllPlaces(|waiting|));
    hide At, AllPlaces;
  }

  lemma TakerTakes(definitions: Marks, workspaces: WorkspaceMarks, waiting: seq<Candidate>, revision: nat)
    requires Within(AllPlaces(|waiting|), waiting)
    ensures forall i :: i in KeptPlaces(waiting, AllPlaces(|waiting|), Taker(definitions, workspaces, revision)) <==>
                        FreeAt(definitions, workspaces, waiting, revision, i)
  {
    var all, keep := AllPlaces(|waiting|), Taker(definitions, workspaces, revision);
    hide *;
    KeptAre(waiting, all, keep);
    forall i: nat
      ensures i in KeptPlaces(waiting, all, keep) <==> FreeAt(definitions, workspaces, waiting, revision, i)
    {
      AllHolds(|waiting|, i);
      FreeIs(definitions, workspaces, waiting, revision, i);
    }
  }

  lemma AllHolds(n: nat, i: nat)
    ensures i in AllPlaces(n) <==> i < n
  {
    if i < n { assert AllPlaces(n)[i] == i; }
    hide AllPlaces;
  }

  lemma FreeIs(definitions: Marks, workspaces: WorkspaceMarks, waiting: seq<Candidate>, revision: nat, i: nat)
    ensures FreeAt(definitions, workspaces, waiting, revision, i) <==>
            i < |waiting| && Taker(definitions, workspaces, revision)(waiting[i])
  {
    hide MayTake;
  }

  lemma KeptOfWorkspace(waiting: seq<Candidate>, places: seq<nat>, workspacePath: string)
    requires Within(places, waiting)
    ensures forall p :: p in KeptPlaces(waiting, places, OfWorkspace(workspacePath)) <==>
                        p in places && waiting[p].workspacePath == workspacePath
  {
    hide KeptPlaces;
  }

  lemma KeptAre(waiting: seq<Candidate>, places: seq<nat>, keep: Candidate -> bool)
    requires Within(places, waiting)
    ensures forall p :: p in KeptPlaces(waiting, places, keep) <==> p in places && keep(waiting[p])
  {
  }

  lemma JobIs(takeable: seq<Candidate>, bound: nat)
    requires takeable != []
    ensures var kept := Filter(takeable, OfWorkspace(takeable[0].workspacePath));
            && JobFrom(takeable, bound) == PlannedJob(takeable[0].workspacePath, FirstDefinitions(kept, bound))
            && |FirstDefinitions(kept, bound)| == (if |kept| <= bound then |kept| else bound)
            && forall i :: 0 <= i < |FirstDefinitions(kept, bound)| ==>
                 FirstDefinitions(kept, bound)[i] == kept[i].definition
    ensures OfWorkspace(takeable[0].workspacePath)(takeable[0])
  {
    hide Filter;
  }

  lemma TakesInOrder(
      definitions: Marks, workspaces: WorkspaceMarks, waiting: seq<Candidate>, revision: nat, bound: nat)
    requires bound > 0 && TakeableInOrder(definitions, workspaces, waiting, revision) != []
    ensures TakesFirst(JobFrom(TakeableInOrder(definitions, workspaces, waiting, revision), bound), definitions,
                       workspaces, waiting, revision, bound)
  {
    var takeable, order := TakeableInOrder(definitions, workspaces, waiting, revision),
                           FreePlaces(definitions, workspaces, waiting, revision);
    var ofWorkspace := OfWorkspace(takeable[0].workspacePath);
    FreePlacesAre(definitions, workspaces, waiting, revision);
    hide *;
    AtIs(waiting, order);
    JobIs(takeable, bound);
    var kept, job := KeptPlaces(waiting, order, ofWorkspace), JobFrom(takeable, bound);
    KeptHead(waiting, order, ofWorkspace);
    KeptOfWorkspace(waiting, order, takeable[0].workspacePath);
    KeptRanked(definitions, waiting, order, ofWorkspace);
    KeptFilters(waiting, order, ofWorkspace);
    AtIs(waiting, kept);
    DefinedAt(waiting, kept, job.definitions);
    TakesKept(job, kept, order, definitions, workspaces, waiting, revision, bound);
  }

  lemma DefinedAt(waiting: seq<Candidate>, kept: seq<nat>, taken: seq<JobDefinition>)
    requires Within(kept, waiting) && |taken| <= |kept|
    requires forall k :: 0 <= k < |taken| ==> taken[k] == At(waiting, kept)[k].definition
    ensures forall k :: 0 <= k < |taken| ==> taken[k] == waiting[kept[k]].definition
  {
    AtIs(waiting, kept);
    hide At;
  }

  lemma KeptHead(waiting: seq<Candidate>, places: seq<nat>, keep: Candidate -> bool)
    requires Within(places, waiting) && places != [] && keep(waiting[places[0]])
    ensures var kept := KeptPlaces(waiting, places, keep); kept != [] && kept[0] == places[0]
  {
  }

  lemma TakesKept(
      job: PlannedJob, kept: seq<nat>, order: seq<nat>, definitions: Marks, workspaces: WorkspaceMarks,
      waiting: seq<Candidate>, revision: nat, bound: nat)
    requires bound > 0 && kept != [] && order != [] && kept[0] == order[0]
    requires Within(kept, waiting) && Within(order, waiting)
    requires Ranked(definitions, waiting, kept) && Ranked(definitions, waiting, order)
    requires forall i :: i in order <==> FreeAt(definitions, workspaces, waiting, revision, i)
    requires forall i :: i in kept <==> i in order && waiting[i].workspacePath == job.workspacePath
    requires |job.definitions| == if |kept| <= bound then |kept| else bound
    requires forall k :: 0 <= k < |job.definitions| ==> job.definitions[k] == waiting[kept[k]].definition
    ensures TakesFirst(job, definitions, workspaces, waiting, revision, bound)
  {
    hide FreeAt, Before, Ranked;
    var places := kept[..|job.definitions|];
    RankedFront(definitions, waiting, kept, |places|);
    forall k | 0 <= k < |places|
      ensures kept[k] == places[k] && places[k] in places && places[k] in kept
    {
    }
    forall i: nat | FreeAt(definitions, workspaces, waiting, revision, i) && i != places[0]
      ensures Before(definitions, waiting, places[0], i)
    {
      var k :| 0 <= k < |order| && order[k] == i;
      RankedAt(definitions, waiting, order, k);
    }
    forall i: nat | FreeAt(definitions, workspaces, waiting, revision, i) && waiting[i].workspacePath == job.workspacePath
      ensures || i in places
              || (|places| == bound && forall k :: 0 <= k < |places| ==> Before(definitions, waiting, places[k], i))
    {
      var l :| 0 <= l < |kept| && kept[l] == i;
      if l >= |places| { RankedBehind(definitions, waiting, kept, |places|, l); }
    }
    assert TakesPlaces(job, places, definitions, workspaces, waiting, revision, bound);
  }

  lemma RankedFront(definitions: Marks, waiting: seq<Candidate>, places: seq<nat>, n: nat)
    requires Ranked(definitions, waiting, places) && n <= |places|
    ensures Ranked(definitions, waiting, places[..n])
  {
    hide Before;
  }

  lemma RankedBehind(definitions: Marks, waiting: seq<Candidate>, places: seq<nat>, n: nat, l: nat)
    requires Ranked(definitions, waiting, places) && n <= l < |places|
    ensures forall k :: 0 <= k < n ==> Before(definitions, waiting, places[..n][k], places[l])
  {
    hide Before;
  }

  /** The marks as a value. */
  datatype Plan = Plan(definitions: Marks, workspaces: WorkspaceMarks)

  function MarkOf(definitions: Marks, job: PlannedJob, definition: JobDefinition): Mark {
    if definition.digest in definitions then definitions[definition.digest]
    else Mark(definition.id, job.workspacePath, None, None, false, false)
  }

  function Find(definitions: seq<JobDefinition>, id: Option<string>): (found: Option<JobDefinition>)
    ensures found.Some? ==> found.value in definitions && Some(found.value.id) == id
    ensures found.None? ==> forall d :: d in definitions ==> Some(d.id) != id
  {
    if definitions == [] then None
    else if Some(definitions[0].id) == id then Some(definitions[0])
    else Find(definitions[1..], id)
  }

  /** The marks once the streaks of the job's first `n` definitions but `except_` have ended. */
  function StreaksEnded(definitions: Marks, job: PlannedJob, n: nat, except_: Option<JobDefinition>): Marks
    requires n <= |job.definitions|
  {
    if n == 0 then definitions
    else
      var before, definition := StreaksEnded(definitions, job, n - 1, except_), job.definitions[n - 1];
      if Some(definition) == except_ || definition.digest !in before then before
      else before[definition.digest := before[definition.digest].(endedRunning := false)]
  }

  function HeldMarks(definitions: Marks, job: PlannedJob, n: nat, revision: nat, left: map<string, string>): Marks
    requires n <= |job.definitions|
  {
    if n == 0 then definitions
    else
      var before, definition := HeldMarks(definitions, job, n - 1, revision, left), job.definitions[n - 1];
      before[definition.digest := MarkOf(before, job, definition).(
               heldAt := Some(revision), reason := Get(left, definition.id), endedRunning := false)]
  }

  function Left(definitions: Marks, job: PlannedJob, id: string, revision: nat, reason: string): Marks {
    var definition := Find(job.definitions, Some(id));
    if definition.None? then definitions
    else definitions[definition.value.digest := MarkOf(definitions, job, definition.value).(
                       heldAt := Some(revision), reason := Some(reason), takenLast := true)]
  }

  function Waited(plan: Plan, job: PlannedJob, revision: nat, reason: string): Plan {
    Plan(StreaksEnded(plan.definitions, job, |job.definitions|, None),
         plan.workspaces[job.workspacePath := WorkspaceMark(revision, reason)])
  }

  function BoundMarks(definitions: Marks, job: PlannedJob, revision: nat, runningId: string): Marks {
    Left(StreaksEnded(definitions, job, |job.definitions|, None), job, runningId, revision, TIME_BOUND)
  }

  function ChangeMarks(definitions: Marks, job: PlannedJob, revisionNow: nat, runningId: Option<string>): Marks {
    var running := Find(job.definitions, runningId);
    var ended := StreaksEnded(definitions, job, |job.definitions|, running);
    if running.None? then ended
    else
      var digest := running.value.digest;
      var marked := ended[digest := MarkOf(ended, job, running.value).(endedRunning := true)];
      if digest in definitions && definitions[digest].endedRunning
      then Left(marked, job, running.value.id, revisionNow, REPEATED_INPUT_CHANGE) else marked
  }

  class FalsificationPlan {
    const maxJobDefinitions: nat
    var definitions: Marks
    var workspaces: WorkspaceMarks
    var reportedAt: Option<nat>

    constructor (maxJobDefinitions: nat)
      requires maxJobDefinitions > 0
      ensures definitions == map[] && workspaces == map[] && this.maxJobDefinitions == maxJobDefinitions
    {
      this.maxJobDefinitions := maxJobDefinitions;
      definitions, workspaces, reportedAt := map[], map[], None;
    }

    ghost function TakeableNow(standings: seq<Standing>, revision: nat): Taking
      reads this`definitions, this`workspaces
    {
      Takeable(definitions, workspaces, Candidates(standings), revision)
    }

    /** The next job over the standings as read at `revision`, or why none is taken. */
    method Next(standings: seq<Standing>, revision: nat) returns (look: Look)
      requires maxJobDefinitions > 0
      modifies this
      ensures definitions == Remembered(old(definitions), standings)
      ensures workspaces == WaitingAt(old(workspaces), revision)
      ensures look.NothingWaiting? <==> Candidates(standings) == []
      ensures look.NoneTaken? ==>
                && TakeableNow(standings, revision) == {}
                && look.firstAtRevision == (old(reportedAt) != Some(revision)) && reportedAt == Some(revision)
      ensures !look.NoneTaken? ==> reportedAt == old(reportedAt)
      ensures look.Job? ==>
                && JobOf(look.job, definitions, workspaces, Candidates(standings), revision)
                && |look.job.definitions| <= maxJobDefinitions
                && HeadsJob(look.job, definitions, workspaces, Candidates(standings), revision)
                && TakesFirst(look.job, definitions, workspaces, Candidates(standings), revision, maxJobDefinitions)
    {
      Forget(standings, revision);
      var waiting := Candidates(standings);
      if waiting == [] { return NothingWaiting; }
      TakeableFirst(definitions, workspaces, waiting, revision, maxJobDefinitions);
      hide TakeableInOrder, JobFrom, JobOf, HeadsJob, Takeable, TakesFirst;
      var takeable := TakeableInOrder(definitions, workspaces, waiting, revision);
      if takeable == [] {
        var firstAtRevision := reportedAt != Some(revision);
        reportedAt := Some(revision);
        return NoneTaken(firstAtRevision);
      }
      TakesInOrder(definitions, workspaces, waiting, revision, maxJobDefinitions);
      return Job(JobFrom(takeable, maxJobDefinitions));
    }

    /** A definition whose digest no standing holds has changed or gone, and a workspace waits at its revision only. */
    method Forget(standings: seq<Standing>, revision: nat)
      modifies this`definitions, this`workspaces
      ensures definitions == Remembered(old(definitions), standings)
      ensures workspaces == WaitingAt(old(workspaces), revision)
    {
      var digests := set s | s in standings && s.digest.Some? :: s.digest.value;
      ghost var marks, workspaceMarks := definitions, workspaces;
      var todo := definitions.Keys;
      while todo != {}
        invariant todo <= marks.Keys && definitions == marks - (marks.Keys - todo - digests)
        decreases todo
        modifies this`definitions
      {
        var digest :| digest in todo;
        if digest !in digests { definitions := definitions - {digest}; }
        todo := todo - {digest};
      }
      todo := workspaces.Keys;
      while todo != {}
        invariant todo <= workspaceMarks.Keys
        invariant workspaces == map w | w in workspaceMarks && (w in todo || workspaceMarks[w].revision == revision) ::
                                  workspaceMarks[w]
        decreases todo
        modifies this`workspaces
      {
        var path :| path in todo;
        if workspaces[path].revision != revision { workspaces := workspaces - {path}; }
        todo := todo - {path};
      }
    }

    /** The job's workspace gets no further job at `revision`. */
    method WorkspaceWaits(job: PlannedJob, revision: nat, reason: string)
      modifies this`definitions, this`workspaces
      ensures Plan(definitions, workspaces) == Waited(old(Plan(definitions, workspaces)), job, revision, reason)
    {
      workspaces := workspaces[job.workspacePath := WorkspaceMark(revision, reason)];
      EndStreaks(job, None);
    }

    /** The job ran to its end, so none of its definitions is taken again at `revision`. */
    method RanToEnd(job: PlannedJob, revision: nat, left: map<string, string>)
      modifies this`definitions
      ensures definitions == HeldMarks(old(definitions), job, |job.definitions|, revision, left)
    {
      for i := 0 to |job.definitions|
        invariant definitions == HeldMarks(old(definitions), job, i, revision, left)
      {
        var definition := job.definitions[i];
        var mark := MarkOf(definitions, job, definition);
        definitions := definitions[
          definition.digest :=
            mark.(heldAt := Some(revision), reason := Get(left, definition.id), endedRunning := false)];
      }
    }

    /** The time bound ended the job while the experiment of `runningId` ran: that definition alone waits. */
    method EndedByBound(job: PlannedJob, revision: nat, runningId: string)
      modifies this`definitions
      ensures definitions == BoundMarks(old(definitions), job, revision, runningId)
    {
      EndStreaks(job, None);
      Leave(job, runningId, revision, TIME_BOUND);
    }

    /**
     * An input change ended the job, which marks only the definition that was running, and makes it wait only when the
     * last job that held it ended the same way.
     */
    method EndedByChange(job: PlannedJob, revisionNow: nat, runningId: Option<string>)
      modifies this`definitions
      ensures definitions == ChangeMarks(old(definitions), job, revisionNow, runningId)
    {
      var running := Find(job.definitions, runningId);
      var again := running.Some? && running.value.digest in definitions
                   && definitions[running.value.digest].endedRunning;
      EndStreaks(job, running);
      if running.None? { return; }
      var digest := running.value.digest;
      definitions := definitions[digest := MarkOf(definitions, job, running.value).(endedRunning := true)];
      if again {
        Leave(job, running.value.id, revisionNow, REPEATED_INPUT_CHANGE);
      }
    }

    method EndStreaks(job: PlannedJob, except_: Option<JobDefinition>)
      modifies this`definitions
      ensures definitions == StreaksEnded(old(definitions), job, |job.definitions|, except_)
    {
      for i := 0 to |job.definitions|
        invariant definitions == StreaksEnded(old(definitions), job, i, except_)
      {
        var definition := job.definitions[i];
        if Some(definition) != except_ && definition.digest in definitions {
          definitions := definitions[definition.digest := definitions[definition.digest].(endedRunning := false)];
        }
      }
    }

    /** The job's definition `id` is not taken again at `revision`, and is taken last from now on. */
    method Leave(job: PlannedJob, id: string, revision: nat, reason: string)
      modifies this`definitions
      ensures definitions == Left(old(definitions), job, id, revision, reason)
    {
      var definition := Find(job.definitions, Some(id));
      if definition.None? { return; }
      var mark := MarkOf(definitions, job, definition.value);
      definitions := definitions[
        definition.value.digest := mark.(heldAt := Some(revision), reason := Some(reason), takenLast := true)];
    }
  }

  function Remembered(definitions: Marks, standings: seq<Standing>): Marks {
    var digests := set s | s in standings && s.digest.Some? :: s.digest.value;
    map d | d in definitions && d in digests :: definitions[d]
  }

  function WaitingAt(workspaces: WorkspaceMarks, revision: nat): WorkspaceMarks {
    map w | w in workspaces && workspaces[w].revision == revision :: workspaces[w]
  }

  lemma SortedMembers(definitions: Marks, cs: seq<Candidate>)
    ensures forall c :: c in Sorted(definitions, cs) <==> c in cs
  {
    SortedSorts(definitions, cs);
    forall c
      ensures c in Sorted(definitions, cs) <==> c in cs
    {
      assert c in multiset(Sorted(definitions, cs)) <==> c in multiset(cs);
    }
  }

  lemma FilterHead(cs: seq<Candidate>, keep: Candidate -> bool)
    requires cs != [] && keep(cs[0])
    ensures Filter(cs, keep) != [] && Filter(cs, keep)[0] == cs[0]
  {
  }
}
