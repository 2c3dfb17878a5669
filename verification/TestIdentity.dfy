/** Test identities: a test's place and name, with its occurrence among equal names of its module. */
module TestIdentities {

  datatype Location = Location(workspacePath: string, projectName: string, modulePath: string)

  datatype TestIdentity = TestIdentity(location: Location, namePath: seq<string>, occurrence: nat)

  datatype IdentifiedTest = IdentifiedTest(identity: TestIdentity, isDuplicate: bool)

  ghost function CountOf<T>(items: seq<T>, item: T): nat {
    multiset(items)[item]
  }

  lemma CountNext<T>(items: seq<T>, i: nat)
    requires i < |items|
    ensures CountOf(items[..i + 1], items[i]) == CountOf(items[..i], items[i]) + 1
    ensures forall n :: n != items[i] ==> CountOf(items[..i + 1], n) == CountOf(items[..i], n)
  {
    assert items[..i + 1] == items[..i] + [items[i]];
  }

  lemma {:induction false} CountGrows<T>(items: seq<T>, i: nat, k: nat, n: T)
    requires i <= k <= |items|
    ensures CountOf(items[..i], n) <= CountOf(items[..k], n)
    decreases k
  {
    if i < k {
      CountGrows(items, i, k - 1, n);
      CountNext(items, k - 1);
    }
  }

  /** How often each item occurs. */
  method CountBy<T(==)>(items: seq<T>) returns (counts: map<T, nat>)
    ensures counts.Keys == set n | n in items
    ensures forall n :: n in counts ==> counts[n] == CountOf(items, n)
  {
    counts := map[];
    for i := 0 to |items|
      invariant counts.Keys == set n | n in items[..i]
      invariant forall n :: n in counts ==> counts[n] == CountOf(items[..i], n)
    {
      CountNext(items, i);
      assert items[..i + 1] == items[..i] + [items[i]];
      counts := counts[items[i] := (if items[i] in counts then counts[items[i]] else 0) + 1];
    }
    assert items[..|items|] == items;
  }

  ghost predicate IdentifiesOne(location: Location, namePaths: seq<seq<string>>, i: nat, test: IdentifiedTest)
    requires i < |namePaths|
  {
    && test.identity == TestIdentity(location, namePaths[i], CountOf(namePaths[..i], namePaths[i]))
    && (test.isDuplicate <==> CountOf(namePaths, namePaths[i]) > 1)
  }

  ghost predicate Identifies(location: Location, namePaths: seq<seq<string>>, tests: seq<IdentifiedTest>) {
    && |tests| == |namePaths|
    && forall i :: 0 <= i < |tests| ==> IdentifiesOne(location, namePaths, i, tests[i])
  }

  /** Gives each test the number of tests before it in its module that have its name. */
  method IdentifyModuleTests(location: Location, namePaths: seq<seq<string>>) returns (tests: seq<IdentifiedTest>)
    ensures Identifies(location, namePaths, tests)
  {
    var totals := CountBy(namePaths);
    var seen: map<seq<string>, nat> := map[];
    tests := [];
    for i := 0 to |namePaths|
      invariant |tests| == i
      invariant forall n :: CountOf(namePaths[..i], n) == if n in seen then seen[n] else 0
      invariant forall k :: 0 <= k < i ==> IdentifiesOne(location, namePaths, k, tests[k])
    {
      var n := namePaths[i];
      assert n in totals;
      var occurrence := if n in seen then seen[n] else 0;
      CountNext(namePaths, i);
      seen := seen[n := occurrence + 1];
      tests := tests + [IdentifiedTest(TestIdentity(location, n, occurrence), totals[n] > 1)];
    }
  }

  /** No two tests of a module share an identity, however their names repeat. */
  lemma IdentitiesAreDistinct(
      location: Location, namePaths: seq<seq<string>>, tests: seq<IdentifiedTest>, i: nat, j: nat)
    requires Identifies(location, namePaths, tests) && i < j < |tests|
    ensures tests[i].identity != tests[j].identity
  {
    assert IdentifiesOne(location, namePaths, i, tests[i]) && IdentifiesOne(location, namePaths, j, tests[j]);
    if namePaths[i] == namePaths[j] {
      CountNext(namePaths, i);
      CountGrows(namePaths, i + 1, j, namePaths[i]);
    }
  }

  /** A test is a duplicate exactly when another test of its module has its name. */
  lemma DuplicatesShareNames(location: Location, namePaths: seq<seq<string>>, tests: seq<IdentifiedTest>, i: nat)
    requires Identifies(location, namePaths, tests) && i < |tests|
    ensures tests[i].isDuplicate <==>
            exists j :: 0 <= j < |namePaths| && j != i && namePaths[j] == namePaths[i]
  {
    assert IdentifiesOne(location, namePaths, i, tests[i]);
    var before, after, n := namePaths[..i], namePaths[i + 1..], namePaths[i];
    assert namePaths == before + [n] + after;
    assert CountOf(namePaths, n) == multiset(before)[n] + 1 + multiset(after)[n];
    if n in before {
      var j :| 0 <= j < |before| && before[j] == n;
      assert namePaths[j] == n;
    }
    if n in after {
      var j :| 0 <= j < |after| && after[j] == n;
      assert namePaths[i + 1 + j] == n;
    }
    forall j | 0 <= j < |namePaths| && j != i && namePaths[j] == n
      ensures n in before || n in after
    {
      assert if j < i then before[j] == n else after[j - i - 1] == n;
    }
  }
}
