/** Why a workspace is due, and the order the due ones run in. */
module DueQueues {
  import opened Options
  import opened RunHistories

  datatype Reason =
    | NoRun
    | RefusedRun
    | AnotherAdapterVersion
    | NotFingerprinted
    | NoCurrentFingerprint
    | InputsChanged
    | FailedRun
    | CrashedRun

  datatype RunStatus = Failed | Crashed | OtherStatus

  /** The latest stored run, as it rates against the workspace's fingerprint now. */
  datatype StoredRun = StoredRun(
    status: RunStatus, current: bool, currentAdapter: bool, fingerprinted: bool, holdsFailingTest: bool)

  /** A confirmed workspace of the discovery in effect; `modules` stands for its list of test modules. */
  datatype Eligible = Eligible(
    path: string, modules: string, latest: Option<StoredRun>, refused: bool, fingerprinted: bool, placement: Placement)

  datatype Group = DirectTarget | PriorFailure | Rest

  /** Why the latest stored run is not bound to the current fingerprint. */
  function StaleReason(e: Eligible): Option<Reason> {
    match e.latest
    case None => Some(if e.refused then RefusedRun else NoRun)
    case Some(latest) =>
      if latest.current then None
      else if !latest.currentAdapter then Some(AnotherAdapterVersion)
      else if !latest.fingerprinted then Some(NotFingerprinted)
      else Some(if e.fingerprinted then InputsChanged else NoCurrentFingerprint)
  }

  function RetryReason(latest: Option<StoredRun>): Option<Reason> {
    match latest
    case Some(StoredRun(Failed, _, _, _, _)) => Some(FailedRun)
    case Some(StoredRun(Crashed, _, _, _, _)) => Some(CrashedRun)
    case _ => None
  }

  predicate RetryOwed(e: Eligible, storedNothing: bool) {
    RetryReason(e.latest).Some? || (storedNothing && StaleReason(e).Some?)
  }

  /** Why the workspace is due, its retry armed or not. */
  function ReasonOf(e: Eligible, retry: bool): Option<Reason> {
    if StaleReason(e).Some? then StaleReason(e) else if retry then RetryReason(e.latest) else None
  }

  function GroupOf(e: Eligible, directTargets: set<string>): Group {
    if e.path in directTargets then DirectTarget
    else if e.latest.Some? && e.latest.value.holdsFailingTest then PriorFailure
    else Rest
  }

  function Rank(group: Group): nat {
    match group
    case DirectTarget => 0
    case PriorFailure => 1
    case Rest => 2
  }

  function InGroup(due: seq<Eligible>, directTargets: set<string>, group: Group): seq<Eligible> {
    if due == [] then []
    else (if GroupOf(due[0], directTargets) == group then [due[0]] else []) + InGroup(due[1..], directTargets, group)
  }

  /** Each group in turn, each in the order given. */
  function OrderQueue(due: seq<Eligible>, directTargets: set<string>): seq<Eligible> {
    InGroup(due, directTargets, DirectTarget) + InGroup(due, directTargets, PriorFailure)
    + InGroup(due, directTargets, Rest)
  }

  lemma {:induction false} InGroupMembers(due: seq<Eligible>, directTargets: set<string>, group: Group)
    ensures forall e :: e in InGroup(due, directTargets, group) ==> e in due && GroupOf(e, directTargets) == group
    ensures forall e :: multiset(InGroup(due, directTargets, group))[e] ==
                        if GroupOf(e, directTargets) == group then multiset(due)[e] else 0
  {
    hide GroupOf;
    if due != [] {
      InGroupMembers(due[1..], directTargets, group);
      assert due == [due[0]] + due[1..];
    }
  }

  /** The first of its group is the first of the due workspaces that is in it. */
  lemma {:induction false} InGroupFirst(due: seq<Eligible>, directTargets: set<string>, group: Group) returns (i: nat)
    requires InGroup(due, directTargets, group) != []
    ensures i < |due| && InGroup(due, directTargets, group)[0] == due[i] && GroupOf(due[i], directTargets) == group
    ensures forall k :: 0 <= k < i ==> GroupOf(due[k], directTargets) != group
  {
    hide GroupOf;
    if GroupOf(due[0], directTargets) == group {
      i := 0;
    } else {
      var rest := InGroupFirst(due[1..], directTargets, group);
      i := rest + 1;
      assert forall k :: 1 <= k < i ==> due[k] == due[1..][k - 1];
    }
  }

  lemma OneGroup(group: Group)
    ensures group == DirectTarget || group == PriorFailure || group == Rest
  {
  }

  /** The queue holds exactly the due workspaces, each as often as it is due. */
  lemma QueueHolds(due: seq<Eligible>, directTargets: set<string>)
    ensures multiset(OrderQueue(due, directTargets)) == multiset(due)
  {
    var a := InGroup(due, directTargets, DirectTarget);
    var b := InGroup(due, directTargets, PriorFailure);
    var c := InGroup(due, directTargets, Rest);
    InGroupMembers(due, directTargets, DirectTarget);
    InGroupMembers(due, directTargets, PriorFailure);
    InGroupMembers(due, directTargets, Rest);
    hide GroupOf, InGroup;
    forall e
      ensures multiset(a + b + c)[e] == multiset(due)[e]
    {
      OneGroup(GroupOf(e, directTargets));
    }
  }

  /** No workspace runs before one of an earlier group. */
  lemma QueueOrders(due: seq<Eligible>, directTargets: set<string>, i: nat, j: nat)
    requires i < j < |OrderQueue(due, directTargets)|
    ensures var queue := OrderQueue(due, directTargets);
            Rank(GroupOf(queue[i], directTargets)) <= Rank(GroupOf(queue[j], directTargets))
  {
    var a := InGroup(due, directTargets, DirectTarget);
    var b := InGroup(due, directTargets, PriorFailure);
    var c := InGroup(due, directTargets, Rest);
    InGroupMembers(due, directTargets, DirectTarget);
    InGroupMembers(due, directTargets, PriorFailure);
    InGroupMembers(due, directTargets, Rest);
    PartOf(a, b, c, i);
    PartOf(a, b, c, j);
    hide GroupOf, InGroup;
  }

  lemma PartOf<T>(a: seq<T>, b: seq<T>, c: seq<T>, i: nat)
    requires i < |a + b + c|
    ensures (a + b + c)[i] in (if i < |a| then a else if i < |a| + |b| then b else c)
  {
  }

  lemma QueueEmpty(due: seq<Eligible>, directTargets: set<string>)
    ensures OrderQueue(due, directTargets) == [] <==> due == []
    ensures OrderQueue(due, directTargets) != [] ==> OrderQueue(due, directTargets)[0] in due
  {
    QueueHolds(due, directTargets);
    var queue := OrderQueue(due, directTargets);
    assert queue != [] ==> queue[0] in multiset(queue);
    assert due != [] ==> due[0] in multiset(due);
  }
}
