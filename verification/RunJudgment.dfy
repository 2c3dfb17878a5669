/**
 * Whether a run can still be stored under the fingerprint it started from, and the watch that interrupts one that
 * cannot.
 */
module RunJudgments {
  import opened Options
  import S = SubjectChanges

  type Path = S.Path

  /** Where one build puts a changed path: inside the workspace's inputs, outside, or not placeable, so widened. */
  datatype Where = Inside | WidenedPath | Outside

  /** How a build places paths for the watched workspace: each by itself, unless placing these paths throws. */
  datatype Placing = Placing(where: Path -> Where, throwsOn: seq<Path> -> bool)

  /** How one dependency build places changed paths: by selection over the build `build`, or widened. */
  datatype Placement = Narrowed(build: nat) | Widened

  datatype Fingerprint = Fingerprint(digest: string) | NoFingerprint(reason: string)

  /** What the tracker recorded while the run runs, in its order; both only grow. */
  datatype Window = Window(paths: seq<Path>, causes: seq<string>)

  /** The workspace watched: the files its discovery lists, and how each build places paths for it. */
  datatype Workspace = Workspace(listed: Path -> bool, placings: nat -> Placing)

  datatype PathsInside = PathsInside(inside: seq<Path>, narrowed: seq<Path>)

  datatype Judgment =
    | NoStartFingerprint(reason: string)
    | ChangedInside(paths: seq<Path>, narrowed: seq<Path>, endFingerprinted: bool)
    | Causes(causes: seq<string>)
    | EndUnavailable(reason: string)
    | Moved
    | Kept(outside: seq<Path>)

  /** The path lies inside the workspace's inputs by some placement, or the discovery lists it. */
  ghost predicate IsInside(path: Path, workspace: Workspace, placements: seq<Placement>) {
    || workspace.listed(path)
    || exists p :: p in placements && (p.Widened? || workspace.placings(p.build).where(path) != Outside)
  }

  /** Some narrowed build places the path inside, or the discovery lists it and a narrowed build is held. */
  ghost predicate IsNarrowed(path: Path, workspace: Workspace, placements: seq<Placement>) {
    exists p :: p in placements && p.Narrowed?
                && (workspace.listed(path) || workspace.placings(p.build).where(path) == Inside)
  }

  ghost predicate PlacingThrows(paths: seq<Path>, workspace: Workspace, placements: seq<Placement>) {
    exists p :: p in placements && p.Narrowed? && workspace.placings(p.build).throwsOn(paths)
  }

  ghost function Filtered(paths: seq<Path>, keep: Path -> bool): (kept: seq<Path>)
    ensures forall p :: p in kept <==> p in paths && keep(p)
  {
    if paths == [] then [] else (if keep(paths[0]) then [paths[0]] else []) + Filtered(paths[1..], keep)
  }

  /** The paths placed, or none when placing them throws. */
  ghost function Placed(paths: seq<Path>, workspace: Workspace, placements: seq<Placement>): Option<PathsInside> {
    if PlacingThrows(paths, workspace, placements) then None
    else
      Some(PathsInside(Filtered(paths, p => IsInside(p, workspace, placements)),
                       Filtered(paths, p => IsNarrowed(p, workspace, placements))))
  }

  method Among(paths: seq<Path>, chosen: set<Path>, ghost keep: Path -> bool) returns (kept: seq<Path>)
    requires forall p :: p in paths ==> (p in chosen <==> keep(p))
    ensures kept == Filtered(paths, keep)
  {
    kept := [];
    for i := |paths| downto 0
      invariant kept == Filtered(paths[i..], keep)
    {
      assert paths[i..] == [paths[i]] + paths[i + 1..];
      if paths[i] in chosen { kept := [paths[i]] + kept; }
    }
    assert paths[0..] == paths;
  }

  /** The sets hold the paths inside, and those a narrowed build places inside, by these placements. */
  ghost predicate SetsPlace(
    paths: seq<Path>, workspace: Workspace, placements: seq<Placement>, inside: set<Path>, narrowed: set<Path>)
  {
    && !PlacingThrows(paths, workspace, placements)
    && (forall p :: p in inside <==> p in paths && IsInside(p, workspace, placements))
    && (forall p :: p in narrowed <==> p in paths && IsNarrowed(p, workspace, placements))
  }

  /** Places each path by every placement in turn. */
  method PlaceFor(paths: seq<Path>, workspace: Workspace, placements: seq<Placement>)
      returns (placed: Option<PathsInside>)
    ensures placed == Placed(paths, workspace, placements)
  {
    hide *;
    var listed := set p | p in paths && workspace.listed(p);
    var inside: set<Path>, narrowed: set<Path> := listed, {};
    NonePlaces(paths, workspace, listed);
    assert placements[..0] == [];
    for i := 0 to |placements|
      invariant SetsPlace(paths, workspace, placements[..i], inside, narrowed)
    {
      assert placements[..i + 1] == placements[..i] + [placements[i]];
      var one := PlaceBy(paths, workspace, placements[i], listed);
      if one.None? {
        ThrowsInAll(paths, workspace, placements, i);
        return None;
      }
      PlacesMore(paths, workspace, placements[..i], placements[i], inside, narrowed, one.value);
      inside, narrowed := inside + one.value.0, narrowed + one.value.1;
    }
    assert placements[..|placements|] == placements;
    placed := InOrder(paths, workspace, placements, inside, narrowed);
  }

  /** What one placement places inside, and what it narrows there. */
  ghost predicate PlacesOne(
    paths: seq<Path>, workspace: Workspace, placement: Placement, one: (set<Path>, set<Path>))
  {
    && !(placement.Narrowed? && workspace.placings(placement.build).throwsOn(paths))
    && (forall p :: p in one.0 ==> p in paths)
    && (forall p :: p in paths && (placement.Widened? || workspace.placings(placement.build).where(p) != Outside) ==>
          p in one.0)
    && (forall p :: p in one.0 ==>
          workspace.listed(p) || placement.Widened? || workspace.placings(placement.build).where(p) != Outside)
    && (forall p :: p in one.1 <==>
          p in paths && placement.Narrowed?
          && (workspace.listed(p) || workspace.placings(placement.build).where(p) == Inside))
  }

  method PlaceBy(paths: seq<Path>, workspace: Workspace, placement: Placement, listed: set<Path>)
      returns (one: Option<(set<Path>, set<Path>)>)
    requires forall p :: p in listed <==> p in paths && workspace.listed(p)
    ensures one.None? <==> placement.Narrowed? && workspace.placings(placement.build).throwsOn(paths)
    ensures one.Some? ==> PlacesOne(paths, workspace, placement, one.value)
  {
    match placement
    case Widened => return Some((set p | p in paths, {}));
    case Narrowed(build) =>
      var placing := workspace.placings(build);
      if placing.throwsOn(paths) { return None; }
      var inside := set p | p in paths && placing.where(p) == Inside;
      var widened := set p | p in paths && placing.where(p) == WidenedPath;
      return Some((inside + listed + widened, inside + listed));
  }

  method InOrder(
      paths: seq<Path>, workspace: Workspace, placements: seq<Placement>, inside: set<Path>, narrowed: set<Path>)
      returns (placed: Option<PathsInside>)
    requires SetsPlace(paths, workspace, placements, inside, narrowed)
    ensures placed == Placed(paths, workspace, placements)
  {
    hide IsInside, IsNarrowed, PlacingThrows;
    var insideInOrder := Among(paths, inside, p => IsInside(p, workspace, placements));
    var narrowedInOrder := Among(paths, narrowed, p => IsNarrowed(p, workspace, placements));
    placed := Some(PathsInside(insideInOrder, narrowedInOrder));
    SameFilters(paths, workspace, placements, placed.value);
  }

  lemma NonePlaces(paths: seq<Path>, workspace: Workspace, listed: set<Path>)
    requires forall p :: p in listed <==> p in paths && workspace.listed(p)
    ensures SetsPlace(paths, workspace, [], listed, {})
  {
  }

  lemma PlacesMore(
      paths: seq<Path>, workspace: Workspace, before: seq<Placement>, placement: Placement, inside: set<Path>,
      narrowed: set<Path>, one: (set<Path>, set<Path>))
    requires SetsPlace(paths, workspace, before, inside, narrowed) && PlacesOne(paths, workspace, placement, one)
    ensures SetsPlace(paths, workspace, before + [placement], inside + one.0, narrowed + one.1)
  {
    OneMore(paths, workspace, before, placement);
    hide IsInside, IsNarrowed, PlacingThrows;
  }

  lemma SameFilters(paths: seq<Path>, workspace: Workspace, placements: seq<Placement>, placed: PathsInside)
    requires !PlacingThrows(paths, workspace, placements)
    requires placed.inside == Filtered(paths, p => IsInside(p, workspace, placements))
    requires placed.narrowed == Filtered(paths, p => IsNarrowed(p, workspace, placements))
    ensures Placed(paths, workspace, placements) == Some(placed)
  {
  }

  lemma OneMore(paths: seq<Path>, workspace: Workspace, before: seq<Placement>, placement: Placement)
    ensures var now := before + [placement];
            && (forall p :: IsInside(p, workspace, now) <==>
                  || IsInside(p, workspace, before)
                  || placement.Widened? || workspace.placings(placement.build).where(p) != Outside)
            && (forall p :: IsNarrowed(p, workspace, now) <==>
                  || IsNarrowed(p, workspace, before)
                  || (placement.Narrowed?
                      && (workspace.listed(p) || workspace.placings(placement.build).where(p) == Inside)))
            && (PlacingThrows(paths, workspace, now) <==>
                  || PlacingThrows(paths, workspace, before)
                  || (placement.Narrowed? && workspace.placings(placement.build).throwsOn(paths)))
            && (forall p :: workspace.listed(p) ==> IsInside(p, workspace, before))
  {
    var now := before + [placement];
    assert now[|before|] == placement;
    assert forall q :: q in now <==> q in before || q == placement;
  }

  lemma ThrowsInAll(paths: seq<Path>, workspace: Workspace, placements: seq<Placement>, i: nat)
    requires i < |placements| && placements[i].Narrowed? && workspace.placings(placements[i].build).throwsOn(paths)
    ensures Placed(paths, workspace, placements) == None
  {
    assert placements[i] in placements;
  }

  /** The judgment of a run in progress, or ended, over paths placed; the first reason that applies. */
  function JudgePlaced(start: Fingerprint, window: Window, placed: PathsInside, end: Option<Fingerprint>): Judgment
    requires start.Fingerprint?
  {
    if placed.inside != [] then
      ChangedInside(placed.inside, placed.narrowed, end.Some? && end.value.Fingerprint?)
    else if window.causes != [] then Causes(window.causes)
    else if end.Some? && end.value.NoFingerprint? then EndUnavailable(end.value.reason)
    else if end.Some? && end.value.digest != start.digest then Moved
    else Kept(window.paths)
  }

  /** None when placing the changed paths throws. */
  ghost function Judged(
      workspace: Workspace, start: Fingerprint, window: Window, placements: seq<Placement>, end: Option<Fingerprint>):
      Option<Judgment>
  {
    if start.NoFingerprint? then Some(NoStartFingerprint(start.reason))
    else
      var placed := Placed(window.paths, workspace, placements);
      if placed.None? then None else Some(JudgePlaced(start, window, placed.value, end))
  }

  method JudgeRun(
      workspace: Workspace, start: Fingerprint, window: Window, placements: seq<Placement>, end: Option<Fingerprint>)
      returns (judgment: Option<Judgment>)
    ensures judgment == Judged(workspace, start, window, placements, end)
  {
    hide Placed;
    if start.NoFingerprint? { return Some(NoStartFingerprint(start.reason)); }
    var placed := PlaceFor(window.paths, workspace, placements);
    if placed.None? { return None; }
    judgment := Some(JudgePlaced(start, window, placed.value, end));
  }

  /** A path lies inside still once more paths have changed and more placements are held. */
  lemma InsideGrows(path: Path, workspace: Workspace, some: seq<Placement>, more: seq<Placement>)
    requires forall p :: p in some ==> p in more
    ensures IsInside(path, workspace, some) ==> IsInside(path, workspace, more)
    ensures IsNarrowed(path, workspace, some) ==> IsNarrowed(path, workspace, more) && IsInside(path, workspace, more)
  {
  }

  /**
   * Judged worthless while it runs, a run is judged so for good: whatever more the window records, whatever builds are
   * held since and whatever fingerprint it ends with, it reads changed inside, unless placing the paths throws.
   */
  lemma StaysChangedInside(
      workspace: Workspace, start: Fingerprint, then_: Window, some: seq<Placement>, now: Window, more: seq<Placement>,
      end: Option<Fingerprint>)
    requires Judged(workspace, start, then_, some, None).Some?
    requires Judged(workspace, start, then_, some, None).value.ChangedInside?
    requires (forall p :: p in then_.paths ==> p in now.paths) && forall p :: p in some ==> p in more
    ensures var later := Judged(workspace, start, now, more, end);
            || later.None?
            || (later.value.ChangedInside?
                && forall p :: p in Judged(workspace, start, then_, some, None).value.paths ==> p in later.value.paths)
  {
    var before := Placed(then_.paths, workspace, some).value.inside;
    forall p | p in before
      ensures Placed(now.paths, workspace, more).Some? ==> p in Placed(now.paths, workspace, more).value.inside
    {
      InsideGrows(p, workspace, some, more);
    }
    assert before[0] in before;
  }

  /** Held once or often, in whatever order, placements judge alike. */
  lemma OrderDecidesNothing(
      workspace: Workspace, start: Fingerprint, window: Window, a: seq<Placement>, b: seq<Placement>,
      end: Option<Fingerprint>)
    requires forall p :: p in a <==> p in b
    ensures Judged(workspace, start, window, a, end) == Judged(workspace, start, window, b, end)
  {
    forall p
      ensures IsInside(p, workspace, a) <==> IsInside(p, workspace, b)
      ensures IsNarrowed(p, workspace, a) <==> IsNarrowed(p, workspace, b)
    {
      InsideGrows(p, workspace, a, b);
      InsideGrows(p, workspace, b, a);
    }
    assert PlacingThrows(window.paths, workspace, a) <==> PlacingThrows(window.paths, workspace, b);
    hide IsInside, IsNarrowed, PlacingThrows;
    FilteredAlike(window.paths, p => IsInside(p, workspace, a), p => IsInside(p, workspace, b));
    FilteredAlike(window.paths, p => IsNarrowed(p, workspace, a), p => IsNarrowed(p, workspace, b));
    SamePlaced(window.paths, workspace, a, b);
  }

  lemma {:induction false} FilteredAlike(paths: seq<Path>, f: Path -> bool, g: Path -> bool)
    requires forall p :: f(p) == g(p)
    ensures Filtered(paths, f) == Filtered(paths, g)
  {
    if paths != [] { FilteredAlike(paths[1..], f, g); }
  }

  lemma SamePlaced(paths: seq<Path>, workspace: Workspace, a: seq<Placement>, b: seq<Placement>)
    requires PlacingThrows(paths, workspace, a) <==> PlacingThrows(paths, workspace, b)
    requires Filtered(paths, p => IsInside(p, workspace, a)) == Filtered(paths, p => IsInside(p, workspace, b))
    requires Filtered(paths, p => IsNarrowed(p, workspace, a)) == Filtered(paths, p => IsNarrowed(p, workspace, b))
    ensures Placed(paths, workspace, a) == Placed(paths, workspace, b)
  {
  }

  /**
   * A run is kept exactly when it started under a fingerprint, no changed path is listed or placed anywhere but outside
   * by a held build, no widened build is held once a path changed, nothing else caused doubt, and it did not end
   * under another fingerprint or none.
   */
  lemma KeptExactly(
      workspace: Workspace, start: Fingerprint, window: Window, placements: seq<Placement>, end: Option<Fingerprint>)
    requires Judged(workspace, start, window, placements, end).Some?
    ensures Judged(workspace, start, window, placements, end).value.Kept? <==>
            && start.Fingerprint? && window.causes == [] && (end.Some? ==> end.value == start)
            && forall p :: p in window.paths ==> !IsInside(p, workspace, placements)
  {
    if start.Fingerprint? {
      var inside := Placed(window.paths, workspace, placements).value.inside;
      assert inside == [] || inside[0] in inside;
      hide IsInside;
    }
  }

  /** The changed paths a narrowed build places inside, which interrupt the run, if any. */
  function InterruptingPaths(judgment: Judgment): seq<Path> {
    if judgment.ChangedInside? then judgment.narrowed else []
  }

  /** A build that ended, and the revision it was of. */
  datatype EndedBuild = EndedBuild(build: nat, revision: nat)

  /** What the builds say now: nothing of this discovery, no narrowing of it at all, or its latest ended build. */
  datatype Latest = NoLatest | LatestWidened | LatestEnded(ended: EndedBuild)

  /** How one revision's build narrows. */
  datatype NarrowingAt = Building | NotNarrowed | NarrowedBy(build: nat)

  /**
   * The inputs as they are now: their revision, whether they can be vouched for and narrowed, and the build's
   * state.
   */
  datatype View = View(
    revision: nat, unavailable: bool, takenBySelection: bool, narrowing: NarrowingAt, fingerprint: Fingerprint)

  function PlacementOf(view: View): Option<Placement> {
    if view.unavailable || view.narrowing.Building? then None
    else if view.narrowing.NarrowedBy? && view.takenBySelection then Some(Narrowed(view.narrowing.build))
    else Some(Widened)
  }

  class RunWatch {
    const workspace: Workspace
    const started: Fingerprint
    var window: Window
    var held: seq<Placement>
    var heldBuilds: set<nat>
    var heldWidened: bool
    var seen: set<EndedBuild>
    var newerBuildEnded: bool
    var returned: bool
    var closed: bool
    var failed: bool
    var interruptedBy: Option<seq<Path>>
    /** Every placement given to hold, held already or not. */
    ghost var offered: seq<Placement>

    /** Each placement is held once; and what interrupted the run is still placed inside by what is held. */
    ghost predicate Valid()
      reads this
    {
      && (forall b :: b in heldBuilds <==> Narrowed(b) in held) && (heldWidened <==> Widened in held)
      && Distinct(held) && (forall p :: p in held <==> p in offered)
      && (interruptedBy.Some? ==>
            && started.Fingerprint? && newerBuildEnded
            && interruptedBy.value != [] && interruptedBy.value[0] in window.paths
            && IsNarrowed(interruptedBy.value[0], workspace, held))
    }

    constructor (workspace: Workspace, startView: View, latest: Latest)
      ensures Valid() && this.workspace == workspace && started == startView.fingerprint
      ensures window == Window([], []) && interruptedBy.None? && !newerBuildEnded
      ensures held == match PlacementOf(startView) case Some(start) => [start] case None => []
    {
      this.workspace, started, window := workspace, startView.fingerprint, Window([], []);
      held, heldBuilds, heldWidened, offered := [], {}, false, [];
      seen := if latest.LatestEnded? then {latest.ended} else {};
      newerBuildEnded, returned, closed, failed, interruptedBy := false, false, false, false, None;
      new;
      var start := PlacementOf(startView);
      if start.Some? { Hold(start.value); }
    }

    method Hold(placement: Placement)
      requires Valid()
      modifies this`held, this`heldBuilds, this`heldWidened, this`offered
      ensures Valid() && offered == old(offered) + [placement]
      ensures held == if placement in old(held) then old(held) else old(held) + [placement]
    {
      ghost var was := held;
      offered := offered + [placement];
      match placement {
        case Widened =>
          if heldWidened { return; }
          heldWidened := true;
        case Narrowed(build) =>
          if build in heldBuilds { return; }
          heldBuilds := heldBuilds + {build};
      }
      held := held + [placement];
      if interruptedBy.Some? { InsideGrows(interruptedBy.value[0], workspace, was, held); }
      hide IsNarrowed;
    }

    /** The tracker records more while the run runs. */
    method Record(paths: seq<Path>, causes: seq<string>)
      requires Valid()
      modifies this`window
      ensures Valid() && window == Window(old(window).paths + paths, old(window).causes + causes)
    {
      window := Window(window.paths + paths, window.causes + causes);
    }

    /** Holds the latest build once, narrowed only when a view at its own revision confirms it; whether one ended. */
    method Capture(latest: Latest, view: View) returns (ended: bool)
      requires Valid()
      modifies this`held, this`heldBuilds, this`heldWidened, this`offered, this`seen
      ensures Valid() && (forall p :: p in old(held) ==> p in held)
      ensures ended <==> latest.LatestEnded? && latest.ended !in old(seen)
      ensures ended ==> (if view.revision == latest.ended.revision && PlacementOf(view).Some?
                         then PlacementOf(view).value else Widened) in held
      ensures latest.LatestWidened? ==> Widened in held
    {
      match latest
      case NoLatest => return false;
      case LatestWidened =>
        Hold(Widened);
        return false;
      case LatestEnded(build) =>
        if build in seen { return false; }
        seen := seen + {build};
        var placement := if view.revision == build.revision then PlacementOf(view) else None;
        Hold(if placement.Some? then placement.value else Widened);
        return true;
    }

    /**
     * Interrupts the run only once a newer build ended and a changed path lies inside by a narrowed build; `reaches`
     * says whether the abort reaches its job before the job ends. False when judging throws.
     */
    method InterruptIfWorthless(stopping: bool, reaches: bool) returns (judged: bool)
      requires Valid() && newerBuildEnded
      modifies this`interruptedBy
      ensures Valid()
      ensures interruptedBy != old(interruptedBy) ==>
                && old(interruptedBy).None? && !returned && !closed && !stopping && reaches
                && var judgment := Judged(workspace, started, window, held, None);
                   judgment.Some? && judgment.value.ChangedInside? && interruptedBy == Some(judgment.value.narrowed)
                   && judgment.value.narrowed != []
      ensures !judged ==> Judged(workspace, started, window, held, None).None?
    {
      if returned || closed || stopping || interruptedBy.Some? { return true; }
      hide Placed, IsNarrowed, IsInside;
      var judgment := JudgeRun(workspace, started, window, held, None);
      if judgment.None? { return false; }
      var paths := InterruptingPaths(judgment.value);
      if paths == [] || !reaches { return true; }
      NarrowedIsInside(workspace, started, window, held);
      interruptedBy := Some(paths);
      return true;
    }

    /** One turn of the watch, taken while it is not closed; a turn that throws widens everything and ends the watch. */
    method Look(latest: Latest, view: View, stopping: bool, reaches: bool)
      requires Valid()
      modifies this
      ensures Valid() && window == old(window) && returned == old(returned) && closed == old(closed)
      ensures old(interruptedBy).Some? ==> interruptedBy == old(interruptedBy)
      ensures interruptedBy.Some? && old(interruptedBy).None? ==>
                !returned && !closed && !stopping && reaches
                && Judged(workspace, started, window, held, None).Some?
                && Judged(workspace, started, window, held, None).value.ChangedInside?
    {
      if closed || stopping || failed { return; }
      hide IsNarrowed, Judged;
      var ended := Capture(latest, view);
      if ended { newerBuildEnded := true; }
      if !newerBuildEnded { return; }
      var judged := InterruptIfWorthless(stopping, reaches);
      if !judged {
        Hold(Widened);
        failed := true;
      }
    }

    method RunReturned()
      requires Valid()
      modifies this`returned
      ensures Valid() && returned
    {
      returned := true;
    }

    method Close()
      requires Valid()
      modifies this`closed
      ensures Valid() && closed
    {
      closed := true;
    }

    /**
     * Judges the run by the end view, widening every path when placing them throws. A run that was interrupted is judged
     * changed inside, so it is never stored under its fingerprint.
     */
    method Judge(endView: View) returns (judgment: Judgment)
      requires Valid()
      modifies this`held, this`heldBuilds, this`heldWidened, this`offered
      ensures Valid()
      ensures PlacementOf(endView).Some? ==> PlacementOf(endView).value in held
      ensures var judged := Judged(workspace, started, window, offered, Some(endView.fingerprint));
              if judged.Some? then judgment == judged.value
              else Some(judgment) == Judged(workspace, started, window, [Widened], Some(endView.fingerprint))
      ensures interruptedBy.Some? ==> judgment.ChangedInside? && interruptedBy.value[0] in judgment.paths
    {
      hide Placed, IsNarrowed, IsInside, JudgePlaced;
      var end := PlacementOf(endView);
      if end.Some? { Hold(end.value); }
      OrderDecidesNothing(workspace, started, window, held, offered, Some(endView.fingerprint));
      var first := JudgeRun(workspace, started, window, held, Some(endView.fingerprint));
      if interruptedBy.Some? {
        JudgedInside(workspace, started, window, held, Some(endView.fingerprint), interruptedBy.value[0]);
        WidenedInside(workspace, window, interruptedBy.value[0]);
        JudgedInside(workspace, started, window, [Widened], Some(endView.fingerprint), interruptedBy.value[0]);
      }
      if first.Some? { return first.value; }
      WidenedNeverThrows(workspace, started, window, Some(endView.fingerprint));
      var second := JudgeRun(workspace, started, window, [Widened], Some(endView.fingerprint));
      judgment := second.value;
    }
  }

  lemma NarrowedIsInside(workspace: Workspace, start: Fingerprint, window: Window, placements: seq<Placement>)
    requires Judged(workspace, start, window, placements, None).Some?
    ensures var judgment := Judged(workspace, start, window, placements, None).value;
            InterruptingPaths(judgment) != [] ==>
              && start.Fingerprint? && InterruptingPaths(judgment)[0] in window.paths
              && IsNarrowed(InterruptingPaths(judgment)[0], workspace, placements)
  {
    if start.Fingerprint? {
      var placed := Placed(window.paths, workspace, placements).value;
      assert placed.narrowed == [] || placed.narrowed[0] in placed.narrowed;
    }
  }

  lemma JudgedInside(
      workspace: Workspace, start: Fingerprint, window: Window, placements: seq<Placement>, end: Option<Fingerprint>,
      path: Path)
    requires start.Fingerprint? && path in window.paths
    requires IsInside(path, workspace, placements) || IsNarrowed(path, workspace, placements)
    ensures var judged := Judged(workspace, start, window, placements, end);
            judged.Some? ==> judged.value.ChangedInside? && path in judged.value.paths
  {
    InsideGrows(path, workspace, placements, placements);
    hide IsInside, IsNarrowed;
  }

  lemma WidenedInside(workspace: Workspace, window: Window, path: Path)
    ensures IsInside(path, workspace, [Widened])
  {
    assert Widened in [Widened];
  }

  lemma WidenedNeverThrows(workspace: Workspace, start: Fingerprint, window: Window, end: Option<Fingerprint>)
    ensures Judged(workspace, start, window, [Widened], end).Some?
  {
  }
}
