/** Two live starts racing over a start lock, one file step at a time. */
module StartLocks {
  import opened Options

  /** The two starts, and the process that left the lock and has ended. */
  datatype Process = First | Second | Dead

  /** The next file step of a start. */
  datatype Step =
    | Create
    | ReadHolder
    | MoveAside(stale: Process)
    | ReadAside(stale: Process)
    | PutBack
    | RemoveAside
    | CreateAgain
    | Holding
    | Refused
    | ReadToRelease
    | Remove
    | Released

  /** A start, and the lock file it moved aside, by the process the file names. */
  datatype Start = Start(step: Step, aside: Option<Process>)

  /** The lock file names a process whenever it exists, since a fully written file is linked into place. */
  datatype Files = Files(lock: Option<Process>, first: Start, second: Start)

  function IsRunning(p: Process): bool { p != Dead }

  function Other(p: Process): Process { if p == First then Second else First }

  function Of(files: Files, p: Process): Start { if p == First then files.first else files.second }

  function With(files: Files, p: Process, start: Start): Files {
    if p == First then files.(first := start) else files.(second := start)
  }

  /** One step of the start `p`; `releases` says whether a start that holds the lock begins to release it. */
  function Take(files: Files, p: Process, releases: bool): Files
    requires p != Dead
  {
    var start := Of(files, p);
    match start.step
    case Create =>
      if files.lock.None? then With(files.(lock := Some(p)), p, start.(step := Holding))
      else With(files, p, start.(step := ReadHolder))
    case ReadHolder =>
      With(files, p, start.(step :=
        if files.lock.None? then CreateAgain
        else if IsRunning(files.lock.value) then Refused
        else MoveAside(files.lock.value)))
    case MoveAside(stale) =>
      if files.lock.None? then With(files, p, start.(step := CreateAgain))
      else With(files.(lock := None), p, Start(ReadAside(stale), files.lock))
    case ReadAside(stale) =>
      With(files, p, start.(step := if start.aside != Some(stale) then PutBack else RemoveAside))
    case PutBack =>
      With(if files.lock.None? then files.(lock := start.aside) else files, p, start.(step := RemoveAside))
    case RemoveAside => With(files, p, Start(CreateAgain, None))
    case CreateAgain =>
      if files.lock.None? then With(files.(lock := Some(p)), p, start.(step := Holding))
      else With(files, p, start.(step := Refused))
    case Holding => if releases then With(files, p, start.(step := ReadToRelease)) else files
    case ReadToRelease => With(files, p, start.(step := if files.lock == Some(p) then Remove else Released))
    case Remove => With(files.(lock := None), p, start.(step := Released))
    case Refused => files
    case Released => files
  }

  /** One turn: which start takes its next step, and whether a holder releases. */
  datatype Turn = Turn(second: bool, releases: bool)

  function ProcessOf(turn: Turn): Process { if turn.second then Second else First }

  const FRESH := Start(Create, None)

  /** The files after the turns, from a lock the dead process left, or none. */
  function After(left: bool, turns: seq<Turn>): Files {
    if turns == [] then Files(if left then Some(Dead) else None, FRESH, FRESH)
    else
      var last := turns[|turns| - 1];
      Take(After(left, turns[..|turns| - 1]), ProcessOf(last), last.releases)
  }

  /** The start believes it holds the lock. */
  predicate Holds(start: Start) {
    start.step.Holding? || start.step.ReadToRelease? || start.step.Remove?
  }

  predicate MovedAside(start: Start) {
    start.step.ReadAside? || start.step.PutBack? || start.step.RemoveAside?
  }

  /**
   * A holder's lock is in place, or for a moment aside with the other start, which took it for the stale one and will
   * put it back before it creates any.
   */
  predicate Keeps(files: Files, p: Process)
    requires p != Dead
  {
    var mine, others := Of(files, p), Of(files, Other(p));
    && (mine.aside.Some? <==> MovedAside(mine))
    && (mine.step.MoveAside? ==> mine.step.stale == Dead)
    && (mine.step.ReadAside? ==> mine.step.stale == Dead)
    && (mine.step.PutBack? ==> mine.aside != Some(Dead))
    && (Holds(mine) ==>
          || files.lock == Some(p)
          || ((others.step.ReadAside? || others.step.PutBack?) && others.aside == Some(p) && files.lock.None?))
  }

  lemma {:induction false} KeepsAlways(left: bool, turns: seq<Turn>)
    ensures Keeps(After(left, turns), First) && Keeps(After(left, turns), Second)
  {
    if turns != [] {
      hide *;
      var before, last := turns[..|turns| - 1], turns[|turns| - 1];
      KeepsAlways(left, before);
      LastTurn(left, turns);
      TakeKeeps(After(left, before), ProcessOf(last), last.releases);
    }
  }

  lemma LastTurn(left: bool, turns: seq<Turn>)
    requires turns != []
    ensures var last := turns[|turns| - 1];
            && ProcessOf(last) != Dead
            && After(left, turns) == Take(After(left, turns[..|turns| - 1]), ProcessOf(last), last.releases)
  {
    hide Take;
  }

  lemma TakeKeeps(files: Files, p: Process, releases: bool)
    requires p != Dead && Keeps(files, First) && Keeps(files, Second)
    ensures Keeps(Take(files, p, releases), First) && Keeps(Take(files, p, releases), Second)
  {
  }

  /** At every interleaving at most one of the two starts believes it holds the lock. */
  lemma AtMostOneHolds(left: bool, turns: seq<Turn>)
    ensures !(Holds(After(left, turns).first) && Holds(After(left, turns).second))
  {
    KeepsAlways(left, turns);
    hide After;
  }

  ghost predicate NeverReleases(turns: seq<Turn>) {
    forall i :: 0 <= i < |turns| ==> !turns[i].releases
  }

  /** The start has seen that the dead process's lock is gone, or moved it away itself. */
  predicate PastStale(start: Start) {
    MovedAside(start) || start.step.CreateAgain?
  }

  /**
   * While none releases, only a holder's lock is anywhere, once moved the dead one's never comes back, and a
   * refused start has a holder before it.
   */
  predicate Settles(files: Files, p: Process)
    requires p != Dead
  {
    var mine, others := Of(files, p), Of(files, Other(p));
    && !mine.step.ReadToRelease? && !mine.step.Remove? && !mine.step.Released?
    && (files.lock == Some(p) || others.aside == Some(p) ==> mine.step.Holding?) && mine.aside != Some(p)
    && (PastStale(mine) || mine.step.Holding? ==> files.lock != Some(Dead))
    && (mine.step.Refused? ==> others.step.Holding?)
  }

  lemma {:induction false} SettlesAlways(left: bool, turns: seq<Turn>)
    requires NeverReleases(turns)
    ensures Settles(After(left, turns), First) && Settles(After(left, turns), Second)
  {
    if turns != [] {
      var before, last := turns[..|turns| - 1], turns[|turns| - 1];
      assert NeverReleases(before) && !last.releases;
      hide *;
      SettlesAlways(left, before);
      KeepsAlways(left, before);
      LastTurn(left, turns);
      TakeSettles(After(left, before), ProcessOf(last));
    }
  }

  lemma TakeSettles(files: Files, p: Process)
    requires p != Dead && Keeps(files, First) && Keeps(files, Second)
    requires Settles(files, First) && Settles(files, Second)
    ensures Settles(Take(files, p, false), First) && Settles(Take(files, p, false), Second)
  {
    if p == First {
      TakeSettlesFirst(files);
    } else {
      TakeSettlesSecond(files);
    }
    hide Take, Settles, Keeps;
  }

  lemma TakeSettlesFirst(files: Files)
    requires Keeps(files, First) && Keeps(files, Second) && Settles(files, First) && Settles(files, Second)
    ensures Settles(Take(files, First, false), First) && Settles(Take(files, First, false), Second)
  {
    NamesOne(files.lock);
    NamesOne(files.first.aside);
    NamesOne(files.second.aside);
  }

  lemma TakeSettlesSecond(files: Files)
    requires Keeps(files, First) && Keeps(files, Second) && Settles(files, First) && Settles(files, Second)
    ensures Settles(Take(files, Second, false), First) && Settles(Take(files, Second, false), Second)
  {
    NamesOne(files.lock);
    NamesOne(files.first.aside);
    NamesOne(files.second.aside);
  }

  lemma NamesOne(p: Option<Process>)
    ensures p == None || p == Some(First) || p == Some(Second) || p == Some(Dead)
  {
    match p {
      case None =>
      case Some(First) =>
      case Some(Second) =>
      case Some(Dead) =>
    }
  }

  predicate Done(start: Start) { start.step.Holding? || start.step.Refused? }

  /**
   * When both starts have ended their race and neither has released, exactly one of them holds the lock, and it
   * names it.
   */
  lemma ExactlyOneWins(left: bool, turns: seq<Turn>)
    requires NeverReleases(turns) && Done(After(left, turns).first) && Done(After(left, turns).second)
    ensures var files := After(left, turns);
            && (files.first.step.Holding? <==> files.second.step.Refused?)
            && files.lock == Some(if files.first.step.Holding? then First else Second)
  {
    SettlesAlways(left, turns);
    KeepsAlways(left, turns);
    hide After;
  }

  /** The lock names a start that runs and does not hold it. */
  predicate Stray(files: Files) {
    && files.lock.Some? && IsRunning(files.lock.value)
    && !Holds(Of(files, files.lock.value))
  }

  /** The start is about to put back the lock of the other, which released meanwhile, and no start has taken the name. */
  predicate PutsBackReleased(files: Files, p: Process)
    requires p != Dead
  {
    && Of(files, p).step.PutBack? && files.lock.None?
    && Of(files, p).aside == Some(Other(p)) && Of(files, Other(p)).step.Released?
  }

  /**
   * A file names a start only once it has held the lock, and a lock it holds no more meets a start that moves nothing
   * aside again.
   */
  predicate NamesHolders(files: Files, p: Process)
    requires p != Dead
  {
    var mine, others := Of(files, p), Of(files, Other(p));
    && (files.lock == Some(p) || others.aside == Some(p) ==> Holds(mine) || mine.step.Released?)
    && mine.aside != Some(p)
    && (files.lock == Some(p) && !Holds(mine) ==>
          others.step.RemoveAside? || others.step.CreateAgain? || others.step.Refused?)
  }

  /** One file step leaves a lock that names a start not holding it exactly when there was one, or it puts one back. */
  lemma OneStepStrays(files: Files, p: Process, releases: bool)
    requires p != Dead && Keeps(files, First) && Keeps(files, Second)
    requires NamesHolders(files, First) && NamesHolders(files, Second)
    ensures Stray(Take(files, p, releases)) <==> Stray(files) || PutsBackReleased(files, p)
    ensures NamesHolders(Take(files, p, releases), First) && NamesHolders(Take(files, p, releases), Second)
  {
    NamesOne(files.lock);
    NamesOne(Of(files, p).aside);
    NamesOne(Of(files, Other(p)).aside);
    if p == First { FirstStrays(files, releases); } else { SecondStrays(files, releases); }
    hide Take, Keeps, NamesHolders, Stray, PutsBackReleased;
  }

  lemma FirstStrays(files: Files, releases: bool)
    requires Keeps(files, First) && Keeps(files, Second)
    requires NamesHolders(files, First) && NamesHolders(files, Second)
    ensures Stray(Take(files, First, releases)) <==> Stray(files) || PutsBackReleased(files, First)
    ensures NamesHolders(Take(files, First, releases), First) && NamesHolders(Take(files, First, releases), Second)
  {
    NamesOne(files.lock);
    NamesOne(files.first.aside);
    NamesOne(files.second.aside);
  }

  lemma SecondStrays(files: Files, releases: bool)
    requires Keeps(files, First) && Keeps(files, Second)
    requires NamesHolders(files, First) && NamesHolders(files, Second)
    ensures Stray(Take(files, Second, releases)) <==> Stray(files) || PutsBackReleased(files, Second)
    ensures NamesHolders(Take(files, Second, releases), First) && NamesHolders(Take(files, Second, releases), Second)
  {
    NamesOne(files.lock);
    NamesOne(files.first.aside);
    NamesOne(files.second.aside);
  }

  /** The turn at `i` puts back the lock of a start that released while it was aside. */
  ghost predicate PutBackAt(left: bool, turns: seq<Turn>, i: int)
    requires 0 <= i < |turns|
  {
    PutsBackReleased(After(left, turns[..i]), ProcessOf(turns[i]))
  }

  lemma PutBackBefore(left: bool, turns: seq<Turn>, i: int)
    requires 0 <= i < |turns| - 1
    ensures PutBackAt(left, turns, i) <==> PutBackAt(left, turns[..|turns| - 1], i)
  {
    assert turns[..|turns| - 1][..i] == turns[..i];
    hide PutsBackReleased, After;
  }

  /**
   * After any turns the lock names a start that runs and does not hold it exactly when, at one of them, a start put back
   * the lock of the other, which had released while its lock was aside.
   */
  lemma {:induction false} StrayExactly(left: bool, turns: seq<Turn>)
    ensures Stray(After(left, turns)) <==> exists i :: 0 <= i < |turns| && PutBackAt(left, turns, i)
    ensures NamesHolders(After(left, turns), First) && NamesHolders(After(left, turns), Second)
  {
    if turns != [] {
      hide *;
      var n := |turns| - 1;
      var before, last := turns[..n], turns[n];
      StrayExactly(left, before);
      KeepsAlways(left, before);
      LastTurn(left, turns);
      OneStepStrays(After(left, before), ProcessOf(last), last.releases);
      PutBackIs(left, turns, n);
      if i :| 0 <= i < |turns| && PutBackAt(left, turns, i) {
        if i < n { PutBackBefore(left, turns, i); }
      }
      if i :| 0 <= i < |before| && PutBackAt(left, before, i) {
        PutBackBefore(left, turns, i);
      }
    }
  }

  lemma PutBackIs(left: bool, turns: seq<Turn>, i: int)
    requires 0 <= i < |turns|
    ensures PutBackAt(left, turns, i) <==> PutsBackReleased(After(left, turns[..i]), ProcessOf(turns[i]))
  {
    hide PutsBackReleased;
  }

  lemma {:induction false} NoneAside(turns: seq<Turn>)
    ensures var files := After(false, turns);
            && files.lock != Some(Dead)
            && !MovedAside(files.first) && !files.first.step.MoveAside?
            && !MovedAside(files.second) && !files.second.step.MoveAside?
  {
    if turns != [] {
      NoneAside(turns[..|turns| - 1]);
    }
  }

  /** Where no process left a lock behind, none is moved aside, and the lock always names its holder. */
  lemma NoLeftLockNoStray(turns: seq<Turn>)
    ensures !Stray(After(false, turns))
  {
    StrayExactly(false, turns);
    if i :| 0 <= i < |turns| && PutBackAt(false, turns, i) {
      NoneAside(turns[..i]);
      assert false;
    }
  }

  /**
   * A start that releases while the other has its lock aside finds no lock to remove, and the other puts the lock back:
   * then neither holds it, and it names a process that runs but released it.
   */
  lemma ReleaseCanLeaveItsLock()
    ensures exists turns :: var files := After(true, turns);
              files.first.step.Released? && files.second.step.Refused? && files.lock == Some(First)
  {
    var turns := SecondReadsDead();
    turns := FirstTakes(turns);
    turns := SecondMovesLive(turns);
    turns := FirstReleases(turns);
    turns := SecondPutsBack(turns);
    hide After;
  }

  lemma SecondReadsDead() returns (turns: seq<Turn>)
    ensures After(true, turns) == Files(Some(Dead), FRESH, Start(MoveAside(Dead), None))
  {
    var two := Turn(true, false);
    RunsTo(true, [], two);
    RunsTo(true, [] + [two], two);
    turns := [] + [two] + [two];
  }

  lemma RunsTo(left: bool, turns: seq<Turn>, turn: Turn)
    ensures After(left, turns + [turn]) == Take(After(left, turns), ProcessOf(turn), turn.releases)
  {
    assert (turns + [turn])[..|turns|] == turns;
    hide Take;
  }

  lemma FirstTakes(before: seq<Turn>) returns (turns: seq<Turn>)
    requires After(true, before) == Files(Some(Dead), FRESH, Start(MoveAside(Dead), None))
    ensures After(true, turns) == Files(Some(First), Start(Holding, None), Start(MoveAside(Dead), None))
  {
    var one := Turn(false, false);
    turns := before + [one] + [one] + [one] + [one] + [one] + [one];
    RunsTo(true, before, one);
    RunsTo(true, before + [one], one);
    RunsTo(true, before + [one] + [one], one);
    RunsTo(true, before + [one] + [one] + [one], one);
    RunsTo(true, before + [one] + [one] + [one] + [one], one);
    RunsTo(true, before + [one] + [one] + [one] + [one] + [one], one);
    hide After;
  }

  lemma SecondMovesLive(before: seq<Turn>) returns (turns: seq<Turn>)
    requires After(true, before) == Files(Some(First), Start(Holding, None), Start(MoveAside(Dead), None))
    ensures After(true, turns) == Files(None, Start(Holding, None), Start(ReadAside(Dead), Some(First)))
  {
    turns := before + [Turn(true, false)];
    RunsTo(true, before, Turn(true, false));
    hide After;
  }

  lemma FirstReleases(before: seq<Turn>) returns (turns: seq<Turn>)
    requires After(true, before) == Files(None, Start(Holding, None), Start(ReadAside(Dead), Some(First)))
    ensures After(true, turns) == Files(None, Start(Released, None), Start(ReadAside(Dead), Some(First)))
  {
    var release := Turn(false, true);
    turns := before + [release] + [release];
    RunsTo(true, before, release);
    RunsTo(true, before + [release], release);
    hide After;
  }

  lemma SecondPutsBack(before: seq<Turn>) returns (turns: seq<Turn>)
    requires After(true, before) == Files(None, Start(Released, None), Start(ReadAside(Dead), Some(First)))
    ensures After(true, turns) == Files(Some(First), Start(Released, None), Start(Refused, None))
  {
    var two := Turn(true, false);
    turns := before + [two] + [two] + [two] + [two];
    RunsTo(true, before, two);
    RunsTo(true, before + [two], two);
    RunsTo(true, before + [two] + [two], two);
    RunsTo(true, before + [two] + [two] + [two], two);
    hide After;
  }
}
