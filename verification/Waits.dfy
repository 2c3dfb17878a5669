/** The pending waits: each binds to one input revision and is answered, or fails, once. */
module Waiting {
  import opened Options
  import opened SubjectChanges

  /**
   * The workspaces covering a wait's files at a revision whose dependency build has ended, and each one's inputs
   * there.
   */
  datatype Coverage = Coverage(
    revision: nat, discoveryId: string, workspaces: set<string>, inputPaths: string -> set<Path>)

  datatype Bound = Bound(revision: nat, digests: Digests)

  /** The paths a later revision changed, and whether every workspace counts as covering. */
  datatype Change = Change(paths: set<Path>, everyWorkspace: bool)

  datatype Outcome =
    | Superseded(at: nat, changed: set<Path>, everyWorkspace: bool)
    | Settled
    | Unsettled
    | NoAnswer
    | Failed

  /**
   * The daemon read once: the inputs' snapshot, if they can be vouched for, the discovery in effect, whether an answer
   * has a basis, when covering workspaces have nothing coming, and the coverage of a revision, if its build has ended.
   */
  datatype Moment = Moment(
    revision: nat, snapshot: Option<Digests>, discoveryId: Option<string>, basis: bool, settles: set<string> -> bool,
    cover: nat -> Option<Coverage>)
  {
    /** A coverage is of the revision asked for and of the discovery in effect. */
    ghost predicate Valid() {
      discoveryId.Some? ==> forall r :: cover(r).Some? ==> Covers(cover(r).value, r)
    }

    ghost predicate Covers(coverage: Coverage, r: nat) {
      coverage.revision == r && Some(coverage.discoveryId) == discoveryId
    }
  }

  predicate Differs(path: Path, before: Digests, after: Digests) {
    Get(before, path) != Get(after, path)
  }

  /** The path is an input of a workspace covering the files at either revision, there. */
  predicate IsCoveredInput(path: Path, covered: Coverage, now: Coverage) {
    exists w :: w in covered.workspaces + now.workspaces && path in covered.inputPaths(w) + now.inputPaths(w)
  }

  /** The path changed between the bound revision's inputs and a later one's, as far as it can be said. */
  ghost predicate IsChanged(path: Path, covered: Option<Coverage>, before: Digests, after: Digests, now: Option<Coverage>) {
    Differs(path, before, after) && (covered.None? || (now.Some? && IsCoveredInput(path, covered.value, now.value)))
  }

  /** Adds each of the paths whose digest differs between the two snapshots. */
  method Differing(paths: set<Path>, before: Digests, after: Digests, into: set<Path>) returns (all: set<Path>)
    ensures forall p :: p in all <==> p in into || (p in paths && Differs(p, before, after))
  {
    all := into;
    var todo := paths;
    while todo != {}
      invariant todo <= paths
      invariant forall p :: p in all <==> p in into || (p in paths - todo && Differs(p, before, after))
      decreases todo
    {
      var path :| path in todo;
      todo := todo - {path};
      if Differs(path, before, after) { all := all + {path}; }
    }
  }

  /** The change since the bound revision, none when nothing changed or it is too soon to say. */
  method ChangedSince(covered: Option<Coverage>, before: Digests, after: Digests, now: Option<Coverage>)
      returns (change: Option<Change>)
    ensures change.None? <==> forall p :: !IsChanged(p, covered, before, after, now)
    ensures change.Some? ==>
              && change.value.everyWorkspace == covered.None?
              && forall p :: p in change.value.paths <==> IsChanged(p, covered, before, after, now)
  {
    var paths: set<Path> := {};
    if covered.None? {
      paths := Differing(before.Keys, before, after, paths);
      paths := Differing(after.Keys, before, after, paths);
      assert forall p :: Differs(p, before, after) ==> p in before.Keys || p in after.Keys;
    } else if now.Some? {
      var was, is_ := covered.value, now.value;
      var all := was.workspaces + is_.workspaces;
      var todo := all;
      while todo != {}
        invariant todo <= all
        invariant forall p :: p in paths <==>
                    Differs(p, before, after)
                    && exists w :: w in all - todo && p in was.inputPaths(w) + is_.inputPaths(w)
        decreases todo
      {
        var w :| w in todo;
        ghost var done := all - todo;
        todo := todo - {w};
        assert all - todo == done + {w};
        paths := Differing(was.inputPaths(w), before, after, paths);
        paths := Differing(is_.inputPaths(w), before, after, paths);
      }
      assert all - {} == all;
    }
    assert forall p :: p in paths <==> IsChanged(p, covered, before, after, now);
    change := if paths == {} then None else Some(Change(paths, covered.None?));
  }

  class PendingWait {
    const paths: seq<Path>
    var read: bool
    var unread: nat
    var bound: Option<Bound>
    var boundCoverage: Option<Coverage>
    var coverage: Option<Coverage>
    /** What the wait was answered with, or that it failed; none while it is pending. */
    var outcome: Option<Outcome>

    /** The bound coverage is of the bound revision. */
    ghost predicate Valid()
      reads this
    {
      boundCoverage.Some? ==> bound.Some? && boundCoverage.value.revision == bound.value.revision
    }

    constructor (paths: seq<Path>)
      ensures Valid() && this.paths == paths && outcome.None? && bound.None? && !read
    {
      this.paths, read, unread, bound, boundCoverage, coverage, outcome := paths, false, 0, None, None, None, None;
    }
  }

  /**
   * A wait may be settled at the moment: its coverage there is known, nothing it named is unread, the covering
   * workspaces have nothing coming, and at a later revision than the one it bound no input of a workspace covering it
   * at either changed, or nothing at all did when the bound coverage was never known.
   */
  ghost predicate MaySettle(
    bound: Bound, boundCoverage: Option<Coverage>, moment: Moment, now: Coverage, unread: nat)
    requires moment.snapshot.Some?
  {
    && now.revision == moment.revision && unread == 0 && moment.basis && moment.settles(now.workspaces)
    && (moment.revision != bound.revision ==>
          match boundCoverage
          case None => forall p :: !Differs(p, bound.digests, moment.snapshot.value)
          case Some(covered) =>
            && covered.revision == bound.revision
            && forall p :: IsCoveredInput(p, covered, now) ==> !Differs(p, bound.digests, moment.snapshot.value))
  }

  class Waits {
    var pending: set<PendingWait>
    /** Every wait ever taken. */
    ghost var taken: set<PendingWait>

    /** A wait is pending exactly until it has its outcome. */
    ghost predicate Valid()
      reads this, taken
    {
      && pending <= taken
      && forall w :: w in taken ==> w.Valid() && (w in pending <==> w.outcome.None?)
    }

    constructor ()
      ensures Valid() && pending == {} && taken == {}
    {
      pending, taken := {}, {};
    }

    method Wait(paths: seq<Path>) returns (wait: PendingWait)
      requires Valid()
      modifies this
      ensures Valid() && fresh(wait) && taken == old(taken) + {wait} && pending == old(pending) + {wait}
      ensures wait.paths == paths && wait.outcome.None? && wait.bound.None?
    {
      wait := new PendingWait(paths);
      pending, taken := pending + {wait}, taken + {wait};
    }

    /** Answers or fails a wait once; it holds nothing after. */
    method Settle(wait: PendingWait, outcome: Outcome)
      requires Valid() && wait in taken
      modifies this`pending, wait`outcome
      ensures Valid() && pending == old(pending) - {wait}
      ensures wait.outcome == if wait in old(pending) then Some(outcome) else old(wait.outcome)
    {
      if wait !in pending { return; }
      pending := pending - {wait};
      wait.outcome := Some(outcome);
    }

    /** Its named paths were read, and read again once the inputs settled. */
    method WasRead(wait: PendingWait, unread: nat)
      requires Valid() && wait in taken
      modifies wait`read, wait`unread
      ensures Valid() && (wait in pending ==> wait.read && wait.unread == unread)
    {
      if wait !in pending { return; }
      wait.unread, wait.read := unread, true;
    }

    /** Unsettled at its limit, with no answer when the reading has no basis. */
    method Expire(wait: PendingWait, moment: Moment)
      requires Valid() && wait in taken
      modifies this`pending, wait`outcome
      ensures Valid() && pending == old(pending) - {wait}
      ensures wait.outcome == if wait in old(pending) then Some(if moment.basis then Unsettled else NoAnswer)
                              else old(wait.outcome)
    {
      Settle(wait, if moment.basis then Unsettled else NoAnswer);
    }

    /** The wait's latest coverage when it is of this revision and discovery, which is computed once. */
    method CoverageAt(wait: PendingWait, moment: Moment, revision: nat) returns (coverage: Option<Coverage>)
      requires moment.Valid() && moment.discoveryId.Some?
      ensures IsCoverage(coverage, wait.coverage, moment, revision)
    {
      if wait.coverage.Some? && wait.coverage.value.revision == revision
         && Some(wait.coverage.value.discoveryId) == moment.discoveryId
      {
        return wait.coverage;
      }
      return moment.cover(revision);
    }

    /**
     * Takes the coverage at the moment's revision, and at the bound revision until it is known; a discovery stored at
     * the bound revision replaces the coverage taken over the one before.
     */
    method TakeCoverage(wait: PendingWait, moment: Moment) returns (now: Option<Coverage>)
      requires Valid() && wait in taken && wait.bound.Some? && moment.Valid() && moment.discoveryId.Some?
      modifies wait`boundCoverage, wait`coverage
      ensures Valid() && IsCoverage(now, old(wait.coverage), moment, moment.revision)
      ensures wait.boundCoverage.Some? ==> wait.boundCoverage.value.revision == wait.bound.value.revision
      ensures old(wait.boundCoverage).Some? && moment.revision != wait.bound.value.revision ==>
                wait.boundCoverage == old(wait.boundCoverage)
    {
      var bound := wait.bound.value;
      now := CoverageAt(wait, moment, moment.revision);
      if moment.revision == bound.revision {
        if now.Some? { wait.boundCoverage := now; }
      } else if wait.boundCoverage.None? {
        var covered := CoverageAt(wait, moment, bound.revision);
        wait.boundCoverage := covered;
      }
      if now.Some? { wait.coverage := now; }
      else if wait.coverage.None? { wait.coverage := wait.boundCoverage; }
    }

    /** Binds in the same turn it reads the snapshot, then judges superseded before settled. */
    method JudgeOne(wait: PendingWait, moment: Moment) returns (ghost now: Option<Coverage>)
      requires Valid() && wait in taken && moment.Valid()
      modifies this`pending, wait`bound, wait`boundCoverage, wait`coverage, wait`outcome
      ensures Valid() && (pending == old(pending) || pending == old(pending) - {wait})
      ensures old(wait.outcome).Some? ==> wait.outcome == old(wait.outcome) && wait.bound == old(wait.bound)
      ensures old(wait.bound).Some? ==> wait.bound == old(wait.bound)
      ensures wait.bound != old(wait.bound) ==>
                moment.snapshot.Some? && wait.bound == Some(Bound(moment.revision, moment.snapshot.value))
      ensures old(wait.outcome).None? && wait.outcome.Some? ==>
                && moment.snapshot.Some? && wait.bound.Some? && moment.discoveryId.Some?
                && IsCoverage(now, old(wait.coverage), moment, moment.revision)
                && JudgedAs(wait.outcome.value, wait.bound.value, wait.boundCoverage, moment, now, wait.unread)
    {
      now := None;
      if wait !in pending || moment.snapshot.None? { return; }
      var snapshot := moment.snapshot.value;
      if wait.bound.None? { wait.bound := Some(Bound(moment.revision, snapshot)); }
      var bound := wait.bound.value;
      if moment.discoveryId.None? { return; }
      hide Differs, IsCoveredInput, IsChanged;
      var coverage := TakeCoverage(wait, moment);
      now := coverage;
      var change := ChangedSince(wait.boundCoverage, bound.digests, snapshot, coverage);
      if moment.revision != bound.revision && change.Some? {
        Settle(wait, if moment.basis then Superseded(moment.revision, change.value.paths, change.value.everyWorkspace)
                     else NoAnswer);
        return;
      }
      if coverage.None? || wait.unread > 0 || !moment.basis { return; }
      if moment.settles(coverage.value.workspaces) {
        NoChangeShows(wait.boundCoverage, bound, moment, coverage.value);
        Settle(wait, Settled);
      }
    }

    /** One reading serves every wait judged; a reading that fails fails each of them. */
    method Judge(waits: seq<PendingWait>, moment: Option<Moment>)
      requires Valid() && (forall w :: w in waits ==> w in taken) && (moment.Some? ==> moment.value.Valid())
      modifies this`pending, taken
      ensures Valid() && taken == old(taken)
      ensures forall w :: w in taken && old(w.outcome).Some? ==> w.outcome == old(w.outcome)
      ensures forall w :: w in taken && old(w.bound).Some? ==> w.bound == old(w.bound)
      ensures moment.None? ==> forall w :: w in waits && old(w.read && w in pending) ==> w.outcome == Some(Failed)
    {
      for i := 0 to |waits|
        invariant Valid() && taken == old(taken)
        invariant forall w :: w in taken && old(w.outcome).Some? ==> w.outcome == old(w.outcome)
        invariant forall w :: w in taken && old(w.bound).Some? ==> w.bound == old(w.bound)
        invariant forall w :: w in taken ==> w.read == old(w.read)
        invariant moment.None? ==> forall w :: w in taken && w.outcome != old(w.outcome) ==> w.outcome == Some(Failed)
        invariant moment.None? ==>
                    forall k :: 0 <= k < i && old(waits[k].read && waits[k] in pending) ==>
                      waits[k].outcome == Some(Failed)
      {
        var wait := waits[i];
        if wait.read && wait in pending {
          if moment.Some? { ghost var now := JudgeOne(wait, moment.value); } else { Settle(wait, Failed); }
        }
      }
    }
  }

  /** The coverage of the revision: the one known already when it is of this revision and discovery, or the moment's. */
  ghost predicate IsCoverage(coverage: Option<Coverage>, known: Option<Coverage>, moment: Moment, revision: nat) {
    if known.Some? && moment.Covers(known.value, revision) then coverage == known
    else coverage == moment.cover(revision) && (coverage.Some? ==> moment.Covers(coverage.value, revision))
  }

  /** What a wait is answered with at a moment: superseded by exactly what changed, settled only when it may be. */
  ghost predicate JudgedAs(
    outcome: Outcome, bound: Bound, boundCoverage: Option<Coverage>, moment: Moment, now: Option<Coverage>, unread: nat)
    requires moment.snapshot.Some?
  {
    match outcome
    case Settled => now.Some? && MaySettle(bound, boundCoverage, moment, now.value, unread)
    case Superseded(at, changed, everyWorkspace) =>
      && at == moment.revision != bound.revision && changed != {} && (everyWorkspace <==> boundCoverage.None?)
      && forall p :: p in changed <==> IsChanged(p, boundCoverage, bound.digests, moment.snapshot.value, now)
    case NoAnswer => !moment.basis
    case _ => false
  }

  lemma NoChangeShows(covered: Option<Coverage>, bound: Bound, moment: Moment, now: Coverage)
    requires moment.snapshot.Some? && now.revision == moment.revision && moment.basis && moment.settles(now.workspaces)
    requires covered.Some? ==> covered.value.revision == bound.revision
    requires moment.revision != bound.revision ==>
               forall p :: !IsChanged(p, covered, bound.digests, moment.snapshot.value, Some(now))
    ensures MaySettle(bound, covered, moment, now, 0)
  {
    if moment.revision != bound.revision {
      forall p | covered.None? || IsCoveredInput(p, covered.value, now)
        ensures !Differs(p, bound.digests, moment.snapshot.value)
      {
        assert !IsChanged(p, covered, bound.digests, moment.snapshot.value, Some(now));
      }
    }
  }
}
