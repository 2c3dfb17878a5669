/** The change journal: a bounded log of replaced standings that answers as if every recorded snapshot had been kept. */
module ChangeJournals {
  import opened Options
  import opened Cursors
  import opened TestIdentities

  datatype TestStanding = TestStanding(identity: TestIdentity, state: string, freshness: string)

  datatype Entry = Entry(
    kind: string, workspacePath: Option<string>, projectName: Option<string>, modulePath: Option<string>,
    source: Option<string>, reason: string)

  /** A test by its whole identity, or an entry by its kind and the fields that place it, its reason left out. */
  datatype Key =
    | OfTest(identity: TestIdentity)
    | OfEntry(kind: string, workspacePath: Option<string>, projectName: Option<string>, modulePath: Option<string>,
              source: Option<string>)

  datatype Standing = Tested(test: TestStanding) | Listed(entry: Entry)

  type Snapshot = map<Key, Standing>

  datatype Change = Change(sequence: nat, key: Key, before: Option<Standing>)
  datatype NetChange = NetChange(key: Key, atCursor: Option<Standing>, now: Option<Standing>)
  datatype CursorUse = NoneGiven | NotIssued | Expired | Used(sequence: nat)
  datatype Reading = Unusable(use: CursorUse) | Changes(changes: seq<NetChange>)

  /** One `Record` call: the sequence its cursor named and the whole snapshot it recorded. */
  datatype Moment = Moment(sequence: nat, standings: Snapshot)

  function EntryKey(entry: Entry): Key {
    OfEntry(entry.kind, entry.workspacePath, entry.projectName, entry.modulePath, entry.source)
  }

  predicate Same(before: Option<Standing>, now: Option<Standing>) {
    match (before, now)
    case (Some(Tested(t)), Some(Tested(u))) => t.state == u.state && t.freshness == u.freshness
    case (Some(Listed(_)), Some(Listed(_))) => true
    case _ => before.None? && now.None?
  }

  /** The snapshot `Record` takes of its arguments: entries after tests, the later of equal keys kept. */
  function SnapshotOf(standings: seq<TestStanding>, entries: seq<Entry>): Snapshot {
    if entries != [] then
      var entry := entries[|entries| - 1];
      SnapshotOf(standings, entries[..|entries| - 1])[EntryKey(entry) := Listed(entry)]
    else if standings != [] then
      var test := standings[|standings| - 1];
      SnapshotOf(standings[..|standings| - 1], [])[OfTest(test.identity) := Tested(test)]
    else map[]
  }

  /** Whether `net` is the net change from snapshot `then` to `now`: each differing key once, no other. */
  ghost predicate NetOf(net: seq<NetChange>, was: Snapshot, now: Snapshot) {
    && (forall i, j :: 0 <= i < j < |net| ==> net[i].key != net[j].key)
    && (forall i :: 0 <= i < |net| ==>
          && !Same(Get(was, net[i].key), Get(now, net[i].key))
          && Same(net[i].atCursor, Get(was, net[i].key))
          && net[i].now == Get(now, net[i].key))
    && (forall k :: !Same(Get(was, k), Get(now, k)) ==> exists i :: 0 <= i < |net| && net[i].key == k)
  }

  ghost predicate Ascending(changes: seq<Change>) {
    forall i, j :: 0 <= i < j < |changes| ==> changes[i].sequence <= changes[j].sequence
  }

  /** How many of `changes` come after `sequence`. */
  ghost function CountAfter(changes: seq<Change>, sequence: nat): nat {
    if changes == [] then 0
    else (if changes[0].sequence > sequence then 1 else 0) + CountAfter(changes[1..], sequence)
  }

  /** The standing of `key` at `sequence`, read back through `changes` from its standing `now`. */
  ghost function Rewind(changes: seq<Change>, sequence: nat, key: Key, now: Option<Standing>): Option<Standing> {
    if changes == [] then now
    else if changes[0].sequence > sequence && changes[0].key == key then changes[0].before
    else Rewind(changes[1..], sequence, key, now)
  }

  lemma {:induction false} CountAfterSplit(a: seq<Change>, b: seq<Change>, sequence: nat)
    ensures CountAfter(a + b, sequence) == CountAfter(a, sequence) + CountAfter(b, sequence)
  {
    if a == [] {
      assert a + b == b;
    } else {
      assert (a + b)[1..] == a[1..] + b;
      CountAfterSplit(a[1..], b, sequence);
    }
  }

  lemma {:induction false} CountAfterBounds(changes: seq<Change>, sequence: nat)
    ensures CountAfter(changes, sequence) <= |changes|
    ensures (forall c :: c in changes ==> c.sequence > sequence) ==> CountAfter(changes, sequence) == |changes|
    ensures (forall c :: c in changes ==> c.sequence <= sequence) ==> CountAfter(changes, sequence) == 0
  {
    if changes != [] {
      CountAfterBounds(changes[1..], sequence);
    }
  }

  lemma {:induction false} CountAfterMonotone(changes: seq<Change>, low: nat, high: nat)
    requires low <= high
    ensures CountAfter(changes, high) <= CountAfter(changes, low)
  {
    if changes != [] {
      CountAfterMonotone(changes[1..], low, high);
    }
  }

  lemma {:induction false} RewindSplit(a: seq<Change>, b: seq<Change>, sequence: nat, key: Key, now: Option<Standing>)
    ensures Rewind(a + b, sequence, key, now) == Rewind(a, sequence, key, Rewind(b, sequence, key, now))
  {
    if a == [] {
      assert a + b == b;
    } else {
      assert (a + b)[1..] == a[1..] + b;
      RewindSplit(a[1..], b, sequence, key, now);
    }
  }

  /** With no change of the key after the sequence, it stands as it does now. */
  lemma {:induction false} RewindUntouched(changes: seq<Change>, sequence: nat, key: Key, now: Option<Standing>)
    requires forall c :: c in changes ==> c.sequence <= sequence || c.key != key
    ensures Rewind(changes, sequence, key, now) == now
  {
    if changes != [] {
      RewindUntouched(changes[1..], sequence, key, now);
    }
  }

  /** Each moment's snapshot is, up to `Same`, what its sequence reads back from `latest` through `changes`. */
  ghost predicate Remembers(history: seq<Moment>, changes: seq<Change>, latest: Snapshot) {
    forall h, k :: h in history ==> Same(Get(h.standings, k), Rewind(changes, h.sequence, k, Get(latest, k)))
  }

  /** The whole record: ascending changes that lead from every recorded moment to `latest` at `sequence`. */
  ghost predicate Explains(history: seq<Moment>, all: seq<Change>, latest: Snapshot, sequence: nat) {
    && Ascending(all) && (forall i :: 0 <= i < |all| ==> 1 < all[i].sequence <= sequence)
    && (sequence == 0 ==> latest == map[] && all == [])
    && (forall h :: h in history ==> 1 <= h.sequence <= sequence)
    && (forall s :: 1 <= s <= sequence ==> RecordedAt(history, s))
    && Remembers(history, all, latest)
  }

  lemma NoneAfterLatest(history: seq<Moment>, all: seq<Change>, latest: Snapshot, sequence: nat)
    requires Explains(history, all, latest, sequence)
    ensures CountAfter(all, sequence) == 0
  {
    CountAfterBounds(all, sequence);
  }

  /** Recording `next` with its changes at the sequence after `sequence` keeps the whole record. */
  lemma ExplainsNext(
      history: seq<Moment>, all: seq<Change>, latest: Snapshot, sequence: nat, next: Snapshot, added: seq<Change>,
      now: nat)
    requires Explains(history, all, latest, sequence)
    requires now == (if sequence == 0 then 1 else if added != [] then sequence + 1 else sequence)
    requires (sequence == 0 ==> added == []) && forall i :: 0 <= i < |added| ==> added[i].sequence == sequence + 1
    requires Remembers(history, all + added, next)
    ensures Explains(history + [Moment(now, next)], all + added, next, now)
  {
    var moment := Moment(now, next);
    assert forall i :: 0 <= i < |all + added| ==> 1 < (all + added)[i].sequence <= now;
    forall k {
      RewindUntouched(all + added, now, k, Get(next, k));
    }
    forall s | 1 <= s <= now
      ensures RecordedAt(history + [moment], s)
    {
      if s == now {
        assert moment in history + [moment];
      } else {
        assert RecordedAt(history, s);
        var h :| h in history && h.sequence == s;
        assert h in history + [moment];
      }
    }
  }

  /**
   * What is held is the suffix of what was recorded, cut between whole sequences with `bound` changes after the
   * cut.
   */
  ghost predicate HoldsSuffix(all: seq<Change>, held: seq<Change>, dropped: nat, bound: nat) {
    && |held| <= |all| && held == all[|all| - |held|..]
    && (forall i :: 0 <= i < |all| ==> (all[i].sequence > dropped <==> i >= |all| - |held|))
    && (dropped > 0 ==> CountAfter(all, dropped - 1) >= bound)
  }

  lemma SuffixExtends(all: seq<Change>, held: seq<Change>, dropped: nat, bound: nat, added: seq<Change>)
    requires HoldsSuffix(all, held, dropped, bound)
    requires forall i :: 0 <= i < |added| ==> added[i].sequence > dropped
    ensures HoldsSuffix(all + added, held + added, dropped, bound)
  {
    assert (all + added)[|all| - |held|..] == held + added;
    forall i | 0 <= i < |all + added|
      ensures (all + added)[i].sequence > dropped <==> i >= |all| - |held|
    {
      if i >= |all| { assert (all + added)[i] == added[i - |all|]; }
    }
    if dropped > 0 { CountAfterSplit(all, added, dropped - 1); }
  }

  /** The index just past the changes of the sequence at `cut`. */
  method EndOfSequence(held: seq<Change>, cut: nat) returns (next: nat)
    requires cut < |held| && Ascending(held)
    ensures cut < next <= |held|
    ensures forall i :: cut <= i < next ==> held[i].sequence == held[cut].sequence
    ensures forall i :: next <= i < |held| ==> held[i].sequence > held[cut].sequence
  {
    next := cut;
    while next < |held| && held[next].sequence == held[cut].sequence
      invariant cut <= next <= |held|
      invariant forall i :: cut <= i < next ==> held[i].sequence == held[cut].sequence
    {
      next := next + 1;
    }
  }

  /** Cuts the oldest whole sequences while `bound` or more changes are held. */
  method CutOldest(held: seq<Change>, dropped: nat, bound: nat, ghost all: seq<Change>, ghost sequence: nat)
    returns (kept: seq<Change>, nowDropped: nat)
    requires HoldsSuffix(all, held, dropped, bound) && Ascending(all) && bound > 0 && dropped <= sequence
    requires forall i :: 0 <= i < |all| ==> 0 < all[i].sequence <= sequence
    ensures HoldsSuffix(all, kept, nowDropped, bound) && |kept| < bound && nowDropped <= sequence
  {
    hide *;
    HeldAscends(all, held, dropped, bound, sequence);
    var cut := 0;
    nowDropped := dropped;
    assert held[0..] == held;
    while |held| - cut >= bound
      invariant 0 <= cut <= |held| && nowDropped <= sequence
      invariant HoldsSuffix(all, held[cut..], nowDropped, bound)
      decreases |held| - cut
    {
      var next := EndOfSequence(held, cut);
      CutStep(all, held[cut..], nowDropped, bound, next - cut);
      assert held[cut..][next - cut..] == held[next..];
      nowDropped, cut := held[cut].sequence, next;
    }
    kept := held[cut..];
  }

  lemma HeldAscends(all: seq<Change>, held: seq<Change>, dropped: nat, bound: nat, sequence: nat)
    requires HoldsSuffix(all, held, dropped, bound) && Ascending(all)
    requires forall i :: 0 <= i < |all| ==> 0 < all[i].sequence <= sequence
    ensures Ascending(held) && forall i :: 0 <= i < |held| ==> 0 < held[i].sequence <= sequence
  {
  }

  /** Cutting the oldest whole sequence, of `length` changes, while `bound` or more changes are held. */
  lemma CutStep(all: seq<Change>, held: seq<Change>, dropped: nat, bound: nat, length: nat)
    requires HoldsSuffix(all, held, dropped, bound) && Ascending(all)
    requires 0 < length <= |held| && |held| >= bound
    requires forall i :: 0 <= i < length ==> held[i].sequence == held[0].sequence
    requires forall i :: length <= i < |held| ==> held[i].sequence > held[0].sequence
    requires held[0].sequence > 0
    ensures HoldsSuffix(all, held[length..], held[0].sequence, bound)
  {
    var start := |all| - |held|;
    assert all[start] == held[0];
    CutCounts(all, start, held[0].sequence - 1, bound);
    forall i | 0 <= i < |all|
      ensures all[i].sequence > held[0].sequence <==> i >= start + length
    {
      if i >= start { assert held[i - start] == all[i]; }
    }
    assert all[start + length..] == held[length..];
  }

  ghost predicate RecordedAt(history: seq<Moment>, sequence: nat) {
    exists h :: h in history && h.sequence == sequence
  }

  /** One change of `sequence` for each key, holding the standing it had. */
  function ChangesOf(keys: seq<Key>, sequence: nat, latest: Snapshot): seq<Change> {
    seq(|keys|, i requires 0 <= i < |keys| => Change(sequence, keys[i], Get(latest, keys[i])))
  }

  lemma RememberNext(
      history: seq<Moment>, changes: seq<Change>, latest: Snapshot, next: Snapshot, changed: seq<Key>, sequence: nat)
    requires Remembers(history, changes, latest)
    requires forall h :: h in history ==> h.sequence < sequence
    requires forall k :: k in changed <==> !Same(Get(latest, k), Get(next, k))
    ensures Remembers(history, changes + ChangesOf(changed, sequence, latest), next)
  {
    var added := ChangesOf(changed, sequence, latest);
    forall h, k | h in history
      ensures Same(Get(h.standings, k), Rewind(changes + added, h.sequence, k, Get(next, k)))
    {
      RewindSplit(changes, added, h.sequence, k, Get(next, k));
      var back := Rewind(added, h.sequence, k, Get(next, k));
      assert Same(Get(latest, k), back) by {
        if k in changed {
          var i :| 0 <= i < |changed| && changed[i] == k;
          assert added[i] in added;
          FirstOf(added, h.sequence, k, Get(next, k), Get(latest, k));
        } else {
          RewindUntouched(added, h.sequence, k, Get(next, k));
        }
      }
      RewindCongruent(changes, h.sequence, k, Get(latest, k), back);
    }
  }

  lemma {:induction false} FirstOf(
      added: seq<Change>, sequence: nat, key: Key, now: Option<Standing>, before: Option<Standing>)
    requires exists c :: c in added && c.sequence > sequence && c.key == key
    requires forall c :: c in added && c.key == key ==> c.before == before
    ensures Rewind(added, sequence, key, now) == before
  {
    if !(added[0].sequence > sequence && added[0].key == key) {
      FirstOf(added[1..], sequence, key, now, before);
    }
  }

  lemma {:induction false} RewindCongruent(
      changes: seq<Change>, sequence: nat, key: Key, one: Option<Standing>, other: Option<Standing>)
    requires Same(one, other)
    ensures Same(Rewind(changes, sequence, key, one), Rewind(changes, sequence, key, other))
  {
    if changes != [] {
      RewindCongruent(changes[1..], sequence, key, one, other);
    }
  }

  /** From a cut in ascending changes on, every change comes after the sequence before the first of them. */
  lemma CutCounts(all: seq<Change>, cut: nat, before: nat, bound: nat)
    requires Ascending(all) && cut < |all| && all[cut].sequence == before + 1 && |all| - cut >= bound
    ensures CountAfter(all, before) >= bound
  {
    assert all == all[..cut] + all[cut..];
    CountAfterSplit(all[..cut], all[cut..], before);
    CountAfterBounds(all[cut..], before);
  }

  /** All that recording `next` keeps of the record, before anything is dropped. */
  lemma Advances(
      history: seq<Moment>, all: seq<Change>, held: seq<Change>, latest: Snapshot, sequence: nat, dropped: nat,
      bound: nat, next: Snapshot, changed: seq<Key>)
    requires Explains(history, all, latest, sequence) && dropped <= sequence
    requires HoldsSuffix(all, held, dropped, bound)
    requires forall k :: k in changed <==> !Same(Get(latest, k), Get(next, k))
    ensures var added := if sequence == 0 then [] else ChangesOf(changed, sequence + 1, latest);
            var now := if sequence == 0 then 1 else if changed != [] then sequence + 1 else sequence;
            && HoldsSuffix(all + added, held + added, dropped, bound)
            && Explains(history + [Moment(now, next)], all + added, next, now)
  {
    hide HoldsSuffix, CountAfter, Remembers, Same, Ascending, RecordedAt;
    var added := if sequence == 0 then [] else ChangesOf(changed, sequence + 1, latest);
    if sequence > 0 {
      RememberNext(history, all, latest, next, changed, sequence + 1);
    } else {
      assert |history| > 0 ==> history[0] in history;
    }
    SuffixExtends(all, held, dropped, bound, added);
    ExplainsNext(history, all, latest, sequence, next, added,
                 if sequence == 0 then 1 else if added != [] then sequence + 1 else sequence);
  }

  /** The found keys whose standing before differs from the latest one, in order. */
  function NetFor(found: seq<Key>, befores: map<Key, Option<Standing>>, latest: Snapshot): seq<NetChange>
    requires forall k :: k in found ==> k in befores
  {
    if found == [] then []
    else
      var key := found[|found| - 1];
      NetFor(found[..|found| - 1], befores, latest)
      + if Same(befores[key], Get(latest, key)) then [] else [NetChange(key, befores[key], Get(latest, key))]
  }

  lemma {:induction false} NetForReads(found: seq<Key>, befores: map<Key, Option<Standing>>, latest: Snapshot)
    requires Distinct(found) && forall k :: k in found ==> k in befores
    ensures var net := NetFor(found, befores, latest);
            && (forall i :: 0 <= i < |net| ==> net[i].key in found)
            && (forall i, j :: 0 <= i < j < |net| ==> net[i].key != net[j].key)
            && (forall i :: 0 <= i < |net| ==>
                  && net[i].atCursor == befores[net[i].key] && net[i].now == Get(latest, net[i].key)
                  && !Same(net[i].atCursor, net[i].now))
            && (forall k :: k in found && !Same(befores[k], Get(latest, k)) ==>
                  exists i :: 0 <= i < |net| && net[i].key == k)
  {
    hide Same;
    if found != [] {
      var front := found[..|found| - 1];
      var net, before := NetFor(found, befores, latest), NetFor(front, befores, latest);
      NetForReads(front, befores, latest);
      assert forall i :: 0 <= i < |before| ==> net[i] == before[i];
      forall k | k in found && !Same(befores[k], Get(latest, k))
        ensures exists i :: 0 <= i < |net| && net[i].key == k
      {
        if k == found[|found| - 1] {
          assert net[|net| - 1].key == k;
        } else {
          assert k in front;
          var i :| 0 <= i < |before| && before[i].key == k;
          assert net[i].key == k;
        }
      }
    }
  }

  /** Rewound past `s`, a key reads as its entry among the befores, and a key without one stays as it is. */
  ghost predicate RewindsTo(changes: seq<Change>, s: nat, befores: map<Key, Option<Standing>>) {
    forall k, now :: Rewind(changes, s, k, now) == if k in befores then befores[k] else now
  }

  lemma RewindsNowhere(s: nat)
    ensures RewindsTo([], s, map[])
  {
  }

  lemma RewindOne(changes: seq<Change>, change: Change, s: nat, key: Key, now: Option<Standing>)
    ensures Rewind(changes + [change], s, key, now) ==
            Rewind(changes, s, key, if change.sequence > s && change.key == key then change.before else now)
  {
    RewindSplit(changes, [change], s, key, now);
    assert [change][1..] == [];
  }

  /** One more change adds what it replaced, if it comes after `s` and is the first of its key. */
  lemma RewindsMore(changes: seq<Change>, change: Change, s: nat, befores: map<Key, Option<Standing>>)
    requires RewindsTo(changes, s, befores)
    ensures RewindsTo(changes + [change], s,
                      if change.sequence > s && change.key !in befores then befores[change.key := change.before]
                      else befores)
  {
    var more := if change.sequence > s && change.key !in befores then befores[change.key := change.before] else befores;
    forall k, now
      ensures Rewind(changes + [change], s, k, now) == if k in more then more[k] else now
    {
      var was := if change.sequence > s && change.key == k then change.before else now;
      RewindOne(changes, change, s, k, now);
      assert Rewind(changes, s, k, was) == if k in befores then befores[k] else was;
    }
  }

  /** A held change or none tells how a key stood at a recorded moment none dropped comes after. */
  lemma ReadFromHeld(
      history: seq<Moment>, h: Moment, all: seq<Change>, held: seq<Change>, latest: Snapshot, dropped: nat, bound: nat,
      befores: map<Key, Option<Standing>>, k: Key)
    requires HoldsSuffix(all, held, dropped, bound) && Remembers(history, all, latest)
    requires h in history && h.sequence >= dropped && RewindsTo(held, h.sequence, befores)
    ensures Same(Get(h.standings, k), if k in befores then befores[k] else Get(latest, k))
  {
    var cut, now := |all| - |held|, Get(latest, k);
    assert all == all[..cut] + held;
    assert Same(Get(h.standings, k), Rewind(all, h.sequence, k, now));
    hide Same, Remembers, Rewind;
    RewindSplit(all[..cut], held, h.sequence, k, now);
    RewindUntouched(all[..cut], h.sequence, k, Rewind(held, h.sequence, k, now));
  }

  lemma NetForIsNet(found: seq<Key>, befores: map<Key, Option<Standing>>, was: Snapshot, latest: Snapshot)
    requires Distinct(found) && forall k :: k in found <==> k in befores
    requires forall k :: Same(Get(was, k), if k in befores then befores[k] else Get(latest, k))
    ensures NetOf(NetFor(found, befores, latest), was, latest)
  {
    NetForReads(found, befores, latest);
    hide NetFor;
  }

  class ChangeJournal {
    const life: string
    /** How many changes recorded after a cursor expire it. */
    const bound: nat
    var sequence: nat
    var latest: Snapshot
    /** The keys of `latest`, in the order they were first set. */
    var order: seq<Key>
    var changes: seq<Change>
    var dropped: nat
    /** Every change recorded in this life, the dropped ones too, and every recorded moment. */
    ghost var all: seq<Change>
    ghost var history: seq<Moment>

    ghost predicate Consistent()
      reads this
    {
      && bound > 0
      && Distinct(order) && (forall k :: k in order <==> k in latest)
      && HoldsSuffix(all, changes, dropped, bound)
      && Explains(history, all, latest, sequence) && dropped <= sequence
    }

    ghost predicate Valid()
      reads this
    {
      Consistent() && |changes| < bound
    }

    constructor (life: string, bound: nat)
      requires bound > 0
      ensures Valid() && history == [] && this.life == life && this.bound == bound
    {
      this.life, this.bound := life, bound;
      sequence, latest, order, changes, dropped := 0, map[], [], [], 0;
      all, history := [], [];
    }

    /** What the journal says of a cursor, over the whole history it was issued in. */
    ghost function UseOf(cursor: Option<string>): CursorUse
      reads this
    {
      if cursor.None? then NoneGiven
      else
        match SequenceOf(cursor.value, life, sequence)
        case None => NotIssued
        case Some(s) => if CountAfter(all, s) >= bound then Expired else Used(s)
    }

    /** Being before the last dropped sequence is having at least `bound` changes recorded after. */
    lemma ExpiryIsCounted(s: nat)
      requires Valid()
      ensures s < dropped <==> CountAfter(all, s) >= bound
    {
      if s < dropped {
        CountAfterMonotone(all, s, dropped - 1);
      } else {
        var cut := |all| - |changes|;
        assert all == all[..cut] + changes;
        CountAfterSplit(all[..cut], changes, s);
        CountAfterBounds(all[..cut], s);
        CountAfterBounds(changes, s);
      }
    }

    method Record(standings: seq<TestStanding>, entries: seq<Entry>) returns (cursor: string)
      requires Valid()
      modifies this
      ensures Valid()
      ensures latest == SnapshotOf(standings, entries)
      ensures sequence ==
              if old(sequence) == 0 then 1
              else if exists k :: !Same(old(Get(latest, k)), Get(latest, k)) then old(sequence) + 1
              else old(sequence)
      ensures history == old(history) + [Moment(sequence, latest)]
      ensures old(all) <= all
      ensures cursor == Cursor(life, sequence)
      ensures UseOf(Some(cursor)) == Used(sequence)
    {
      hide SnapshotOf, Explains, HoldsSuffix, CountAfter;
      var next, nextOrder := Collect(standings, entries);
      var changed := Differing(next, nextOrder);
      assert |changed| > 0 <==> exists k :: !Same(Get(latest, k), Get(next, k)) by {
        if |changed| > 0 { assert changed[0] in changed; }
      }
      Advance(next, nextOrder, changed);
      DropUnneeded();
      cursor := Cursor(life, sequence);
      CursorRoundTrip(cursor, life, sequence, sequence);
      NoneAfterLatest(history, all, latest, sequence);
    }

    /** The state of `Record` before it drops anything: `changed` lists the keys whose standing moves. */
    method Advance(next: Snapshot, nextOrder: seq<Key>, changed: seq<Key>)
      requires Valid()
      requires Distinct(nextOrder) && forall k :: k in nextOrder <==> k in next
      requires forall k :: k in changed <==> !Same(Get(latest, k), Get(next, k))
      modifies this
      ensures Consistent()
      ensures latest == next && history == old(history) + [Moment(sequence, next)]
      ensures all == old(all) + if old(sequence) == 0 then [] else ChangesOf(changed, old(sequence) + 1, old(latest))
      ensures sequence == if old(sequence) == 0 then 1
                          else if |changed| > 0 then old(sequence) + 1 else old(sequence)
    {
      hide Explains, HoldsSuffix;
      Advances(history, all, changes, latest, sequence, dropped, bound, next, changed);
      ghost var added := if sequence == 0 then [] else ChangesOf(changed, sequence + 1, latest);
      assert added == [] ==> all + added == all && changes + added == changes;
      if sequence == 0 {
        // No cursor comes before the first moment, so none reads its changes.
        sequence := 1;
      } else if |changed| > 0 {
        sequence := sequence + 1;
        var pushed := Replaced(changed);
        changes, all := changes + pushed, all + pushed;
      }
      latest, order := next, nextOrder;
      history := history + [Moment(sequence, next)];
    }

    method Collect(standings: seq<TestStanding>, entries: seq<Entry>) returns (next: Snapshot, nextOrder: seq<Key>)
      ensures next == SnapshotOf(standings, entries)
      ensures Distinct(nextOrder) && forall k :: k in nextOrder <==> k in next
    {
      next, nextOrder := map[], [];
      for i := 0 to |standings|
        invariant next == SnapshotOf(standings[..i], [])
        invariant Distinct(nextOrder) && forall k :: k in nextOrder <==> k in next
      {
        var key := OfTest(standings[i].identity);
        if key !in next { nextOrder := nextOrder + [key]; }
        next := next[key := Tested(standings[i])];
        assert standings[..i + 1][..i] == standings[..i];
      }
      assert standings[..|standings|] == standings;
      for i := 0 to |entries|
        invariant next == SnapshotOf(standings, entries[..i])
        invariant Distinct(nextOrder) && forall k :: k in nextOrder <==> k in next
      {
        var key := EntryKey(entries[i]);
        if key !in next { nextOrder := nextOrder + [key]; }
        next := next[key := Listed(entries[i])];
        assert entries[..i + 1][..i] == entries[..i];
      }
      assert entries[..|entries|] == entries;
    }

    /** The keys whose standing differs from the latest one: those set now in their order, then those gone in theirs. */
    method Differing(next: Snapshot, nextOrder: seq<Key>) returns (changed: seq<Key>)
      requires Valid()
      requires Distinct(nextOrder) && forall k :: k in nextOrder <==> k in next
      ensures Distinct(changed)
      ensures forall k :: k in changed <==> !Same(Get(latest, k), Get(next, k))
    {
      changed := [];
      for i := 0 to |nextOrder|
        invariant Distinct(changed)
        invariant forall k :: k in changed <==> k in nextOrder[..i] && !Same(Get(latest, k), Get(next, k))
      {
        if !Same(Get(latest, nextOrder[i]), Some(next[nextOrder[i]])) {
          changed := changed + [nextOrder[i]];
        }
      }
      for i := 0 to |order|
        invariant Distinct(changed)
        invariant forall k :: k in changed <==>
                    (k in nextOrder || k in order[..i]) && !Same(Get(latest, k), Get(next, k))
      {
        if order[i] !in next {
          changed := changed + [order[i]];
        }
      }
    }

    /** One change of the latest sequence for each key, with the standing it replaced. */
    method Replaced(changed: seq<Key>) returns (pushed: seq<Change>)
      ensures pushed == ChangesOf(changed, sequence, latest)
    {
      pushed := [];
      for i := 0 to |changed|
        invariant pushed == ChangesOf(changed[..i], sequence, latest)
      {
        pushed := pushed + [Change(sequence, changed[i], Get(latest, changed[i]))];
        assert pushed == ChangesOf(changed[..i + 1], sequence, latest);
      }
      assert changed[..|changed|] == changed;
    }

    method DropUnneeded()
      requires Consistent()
      modifies this`changes, this`dropped
      ensures Valid()
    {
      changes, dropped := CutOldest(changes, dropped, bound, all, sequence);
    }

    /** What the journal says of a cursor, by the changes it holds. */
    method Usable(cursor: Option<string>) returns (use: CursorUse)
      requires Valid()
      ensures use == UseOf(cursor)
      ensures use.Used? ==> 1 <= use.sequence <= sequence && dropped <= use.sequence
    {
      if cursor.None? { return NoneGiven; }
      var named := SequenceOf(cursor.value, life, sequence);
      if named.None? { return NotIssued; }
      CursorRoundTrip(cursor.value, life, sequence, named.value);
      ExpiryIsCounted(named.value);
      return if named.value < dropped then Expired else Used(named.value);
    }

    /**
     * For a usable cursor, exactly the net change from every snapshot recorded at that cursor to the latest one,
     * whatever was dropped since.
     */
    method Since(cursor: Option<string>) returns (reading: Reading)
      requires Valid()
      ensures !UseOf(cursor).Used? ==> reading == Unusable(UseOf(cursor))
      ensures UseOf(cursor).Used? ==>
                && reading.Changes?
                && RecordedAt(history, UseOf(cursor).sequence)
                && forall h :: h in history && Cursor(life, h.sequence) == cursor.value ==>
                     NetOf(reading.changes, h.standings, latest)
    {
      var use := Usable(cursor);
      if !use.Used? { return Unusable(use); }
      var s := use.sequence;
      var found, befores := FirstBefores(s);
      var net := NetChanges(found, befores);
      reading := Changes(net);
      assert RecordedAt(history, s);
      CursorRoundTrip(cursor.value, life, sequence, s);
      forall h | h in history && Cursor(life, h.sequence) == cursor.value
        ensures NetOf(net, h.standings, latest)
      {
        CursorRoundTrip(cursor.value, life, sequence, h.sequence);
        NetFromHeld(h, found, befores);
      }
    }

    method NetChanges(found: seq<Key>, befores: map<Key, Option<Standing>>) returns (net: seq<NetChange>)
      requires forall k :: k in found ==> k in befores
      ensures net == NetFor(found, befores, latest)
    {
      hide Same;
      net := [];
      for i := 0 to |found|
        invariant net == NetFor(found[..i], befores, latest)
      {
        var now := Get(latest, found[i]);
        assert found[..i + 1][..i] == found[..i];
        if !Same(befores[found[i]], now) {
          net := net + [NetChange(found[i], befores[found[i]], now)];
        }
      }
      assert found[..|found|] == found;
    }

    /** By key, the standing its first held change after `s` replaced. */
    method FirstBefores(s: nat) returns (found: seq<Key>, befores: map<Key, Option<Standing>>)
      ensures Distinct(found) && forall k :: k in found <==> k in befores
      ensures RewindsTo(changes, s, befores)
    {
      hide Rewind, RewindsTo;
      found, befores := [], map[];
      RewindsNowhere(s);
      for i := 0 to |changes|
        invariant Distinct(found) && forall k :: k in found <==> k in befores
        invariant RewindsTo(changes[..i], s, befores)
      {
        var change := changes[i];
        assert changes[..i + 1] == changes[..i] + [change];
        RewindsMore(changes[..i], change, s, befores);
        if change.sequence > s && change.key !in befores {
          found, befores := found + [change.key], befores[change.key := change.before];
        }
      }
      assert changes[..|changes|] == changes;
    }

    /**
     * Reading the held changes reads every key as the moment recorded it, since none dropped comes after its
     * cursor.
     */
    lemma NetFromHeld(h: Moment, found: seq<Key>, befores: map<Key, Option<Standing>>)
      requires Valid() && h in history && h.sequence >= dropped
      requires Distinct(found) && forall k :: k in found <==> k in befores
      requires RewindsTo(changes, h.sequence, befores)
      ensures NetOf(NetFor(found, befores, latest), h.standings, latest)
    {
      forall k
        ensures Same(Get(h.standings, k), if k in befores then befores[k] else Get(latest, k))
      {
        ReadFromHeld(history, h, all, changes, latest, dropped, bound, befores, k);
      }
      hide Same, NetFor;
      NetForIsNet(found, befores, h.standings, latest);
    }
  }
}
