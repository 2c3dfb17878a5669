/** Which environment variables a workspace's env files can carry to its tests. */
module CarriedVariables {
  import opened Options

  /** What one text references, and whether a `$` in it begins no reference. */
  datatype Scan = Scan(names: seq<string>, stray: bool)

  /** An env file's text, or the value of a variable a reference from that file reached. */
  datatype FoundIn = FoundIn(file: string, through: Option<string>)

  datatype Reason = Referenced(where: FoundIn) | Prefixed(prefix: string)

  datatype Carried = Every(where: FoundIn) | Names(names: map<string, Reason>)

  datatype Reference = Reference(name: string, where: FoundIn)

  /** An env file the workspace lists, and the text read at it, if any. */
  datatype EnvFile = EnvFile(path: string, text: Option<string>)

  const PREFIX_MARK := '*'

  predicate StartsWith(name: string, prefix: string) { prefix <= name }

  /** An entry that ends in the mark names every variable it begins. */
  predicate EntryNames(entry: string, name: string) {
    if entry != "" && entry[|entry| - 1] == PREFIX_MARK then StartsWith(name, entry[..|entry| - 1]) else name == entry
  }

  predicate NamedByEntry(entries: seq<string>, name: string) {
    exists i :: 0 <= i < |entries| && EntryNames(entries[i], name)
  }

  /** The start environment: each set variable's values by its name as compared, and what a text references. */
  datatype Environment = Environment(values: map<string, seq<string>>, entries: seq<string>, scan: string -> Scan) {
    /** What a reference can read: its name, and each set variable whose name begins with it or begins it. */
    predicate Reads(name: string, read: string) {
      read == name || (read in values && (StartsWith(read, name) || StartsWith(name, read)))
    }

    function Reach(name: string): (reached: set<string>)
      ensures forall r :: r in reached <==> Reads(name, r)
    {
      {name} + set key | key in values && (StartsWith(key, name) || StartsWith(name, key))
    }

    predicate ValueStray(name: string) {
      name in values && exists i :: 0 <= i < |values[name]| && scan(values[name][i]).stray
    }

    /** The variable's values reference the name. */
    predicate ValueRefers(name: string, next: string) {
      name in values && exists i :: 0 <= i < |values[name]| && next in scan(values[name][i]).names
    }

    /** The set holds whatever a reference from the roots, or from the value of one it holds, can read. */
    ghost predicate Closed(s: set<string>, roots: set<string>) {
      && (forall root, r :: root in roots && Reads(root, r) ==> r in s)
      && (forall v, next, r :: v in s && ValueRefers(v, next) && Reads(next, r) ==> r in s)
    }

    /** A reference from the roots reaches it: it is in the least closed set. */
    ghost predicate Reachable(name: string, roots: set<string>) {
      forall s :: Closed(s, roots) ==> name in s
    }

    function AllValues(): set<string> {
      set key, i | key in values && 0 <= i < |values[key]| :: values[key][i]
    }

    function AllNames(): set<string> {
      set text, i | text in AllValues() && 0 <= i < |scan(text).names| :: scan(text).names[i]
    }

    /** Every name a reference can come to. */
    function Universe(roots: set<string>): set<string> {
      roots + values.Keys + AllNames()
    }

    lemma RefersInUniverse(name: string, next: string, roots: set<string>)
      requires ValueRefers(name, next)
      ensures next in Universe(roots)
    {
      var i :| 0 <= i < |values[name]| && next in scan(values[name][i]).names;
      var text := values[name][i];
      assert text in AllValues();
      var j :| 0 <= j < |scan(text).names| && scan(text).names[j] == next;
    }

    /** There is a closed set, so the least one is finite. */
    lemma UniverseIsClosed(roots: set<string>)
      ensures Closed(Universe(roots), roots)
    {
      var all := Universe(roots);
      forall v, next, r | v in all && ValueRefers(v, next) && Reads(next, r)
        ensures r in all
      {
        RefersInUniverse(v, next, roots);
      }
    }
  }

  /** The names the files' texts reference, or the first file whose text holds a stray `$`. */
  datatype FileReferences = Stray(file: string) | References(references: seq<Reference>)

  ghost predicate FileStray(env: Environment, files: seq<EnvFile>) {
    exists i :: 0 <= i < |files| && files[i].text.Some? && env.scan(files[i].text.value).stray
  }

  ghost predicate FileRefers(env: Environment, files: seq<EnvFile>, file: string, name: string) {
    exists i :: 0 <= i < |files| && files[i].path == file && files[i].text.Some?
                && name in env.scan(files[i].text.value).names
  }

  ghost function Roots(env: Environment, files: seq<EnvFile>): set<string> {
    set i, j | 0 <= i < |files| && files[i].text.Some? && 0 <= j < |env.scan(files[i].text.value).names| ::
      env.scan(files[i].text.value).names[j]
  }

  /** The first file whose text holds a stray `$` is this one. */
  ghost predicate FirstStray(env: Environment, files: seq<EnvFile>, file: string) {
    exists i :: 0 <= i < |files| && files[i].path == file && StrayFrom(env, files, i)
  }

  ghost predicate StrayFrom(env: Environment, files: seq<EnvFile>, i: nat)
    requires i < |files|
  {
    files[i].text.Some? && env.scan(files[i].text.value).stray && !FileStray(env, files[..i])
  }

  /** What the texts at this path reference. */
  ghost function FileRoots(env: Environment, files: seq<EnvFile>, file: string): set<string> {
    set name | name in Roots(env, files) && FileRefers(env, files, file, name)
  }

  /** A stray `$` stands there: in the first listed text with one, or in the value of a variable that file reaches. */
  ghost predicate StrayStands(env: Environment, files: seq<EnvFile>, where: FoundIn) {
    match where.through
    case None => FirstStray(env, files, where.file)
    case Some(through) =>
      !FileStray(env, files) && env.Reachable(through, FileRoots(env, files, where.file)) && env.ValueStray(through)
  }

  /** A reference to the name stands there: in a listed file's text, or in the value of a variable that file reaches. */
  ghost predicate FoundBy(env: Environment, files: seq<EnvFile>, where: FoundIn, name: string) {
    match where.through
    case None => FileRefers(env, files, where.file, name)
    case Some(through) => env.Reachable(through, FileRoots(env, files, where.file)) && env.ValueRefers(through, name)
  }

  ghost function NamesOf(references: seq<Reference>): set<string> {
    set i | 0 <= i < |references| :: references[i].name
  }

  lemma NamesOfMore(a: seq<Reference>, b: seq<Reference>)
    ensures NamesOf(a + b) == NamesOf(a) + NamesOf(b)
  {
    forall n
      ensures n in NamesOf(a + b) <==> n in NamesOf(a) || n in NamesOf(b)
    {
      if n in NamesOf(a) {
        var i :| 0 <= i < |a| && a[i].name == n;
        assert (a + b)[i].name == n;
      }
      if n in NamesOf(b) {
        var i :| 0 <= i < |b| && b[i].name == n;
        assert (a + b)[|a| + i].name == n;
      }
    }
  }

  /** The references to these names, all found in one place. */
  function ReferencesTo(names: seq<string>, where: FoundIn): (references: seq<Reference>)
    ensures |references| == |names|
    ensures forall i :: 0 <= i < |names| ==> references[i] == Reference(names[i], where)
  {
    seq(|names|, i requires 0 <= i < |names| => Reference(names[i], where))
  }

  /** Each reference of the env files' texts in path order, or where a `$` begins none. */
  method ScanFiles(env: Environment, files: seq<EnvFile>) returns (found: FileReferences)
    ensures found.Stray? <==> FileStray(env, files)
    ensures found.Stray? ==> FirstStray(env, files, found.file)
    ensures found.References? ==>
              && NamesOf(found.references) == Roots(env, files)
              && forall r :: r in found.references ==> r.where.through.None? && FoundBy(env, files, r.where, r.name)
  {
    var references: seq<Reference> := [];
    for i := 0 to |files|
      invariant !FileStray(env, files[..i])
      invariant NamesOf(references) == Roots(env, files[..i])
      invariant forall r :: r in references ==> r.where.through.None? && FileRefers(env, files, r.where.file, r.name)
    {
      RootsNext(env, files, i);
      var file := files[i];
      if file.text.Some? {
        var read := env.scan(file.text.value);
        if read.stray {
          assert StrayFrom(env, files, i);
          return Stray(file.path);
        }
        var more := ReferencesTo(read.names, FoundIn(file.path, None));
        NamesOfMore(references, more);
        forall r | r in more
          ensures r.where.through.None? && FileRefers(env, files, r.where.file, r.name)
        {
          assert files[i].path == r.where.file;
        }
        references := references + more;
      }
      assert files[..i + 1] == files[..i] + [file];
    }
    assert files[..|files|] == files;
    found := References(references);
  }

  lemma RootsNext(env: Environment, files: seq<EnvFile>, i: nat)
    requires i < |files|
    ensures var more := if files[i].text.Some? then (set j | 0 <= j < |env.scan(files[i].text.value).names| ::
                                                       env.scan(files[i].text.value).names[j]) else {};
            Roots(env, files[..i + 1]) == Roots(env, files[..i]) + more
  {
    var some, all := files[..i], files[..i + 1];
    assert forall k :: 0 <= k < i ==> all[k] == some[k];
    assert all[i] == files[i];
  }

  /** What one variable's values reference together, and whether any holds a stray `$`. */
  method ScanValues(env: Environment, name: string) returns (scan: Scan)
    ensures scan.stray <==> env.ValueStray(name)
    ensures forall n :: n in scan.names <==> env.ValueRefers(name, n)
  {
    var names: seq<string>, stray := [], false;
    if name in env.values {
      var values := env.values[name];
      for i := 0 to |values|
        invariant stray <==> exists k :: 0 <= k < i && env.scan(values[k]).stray
        invariant forall n :: n in names <==> exists k :: 0 <= k < i && n in env.scan(values[k]).names
      {
        names := names + env.scan(values[i]).names;
        stray := stray || env.scan(values[i]).stray;
      }
    }
    scan := Scan(names, stray);
  }

  /** What the walk keeps: all it visited is reachable, no stray among it, and all those reference is asked for. */
  ghost predicate Walks(env: Environment, roots: set<string>, visited: set<string>, asked: set<string>) {
    && visited <= env.Universe(roots) && asked <= env.Universe(roots) && roots <= asked
    && (forall v :: v in visited ==> env.Reachable(v, roots) && !env.ValueStray(v))
    && (forall a, r :: a in asked && env.Reads(a, r) ==> env.Reachable(r, roots))
    && (forall v, next :: v in visited && env.ValueRefers(v, next) ==> next in asked)
  }

  /** Each name is carried as an entry names it, and where it was found a reference that reads it stands. */
  ghost predicate NamesVisited(
    env: Environment, files: seq<EnvFile>, visited: set<string>, names: map<string, Reason>)
  {
    && (forall n :: n in names <==> n in visited && NamedByEntry(env.entries, n))
    && (forall n :: n in names ==> CarriedBy(env, files, n, names[n]))
  }

  ghost predicate CarriedBy(env: Environment, files: seq<EnvFile>, name: string, reason: Reason) {
    reason.Referenced? && exists asked :: FoundBy(env, files, reason.where, asked) && env.Reads(asked, name)
  }

  lemma StartsWalk(env: Environment, roots: set<string>)
    ensures Walks(env, roots, {}, roots)
  {
    forall a, r | a in roots && env.Reads(a, r)
      ensures env.Reachable(r, roots)
    {
    }
  }

  /** Visiting one more name a reference asked for, with no stray `$` in its values. */
  lemma VisitsOne(
      env: Environment, roots: set<string>, visited: set<string>, asked: set<string>, from: string, name: string,
      next: set<string>)
    requires Walks(env, roots, visited, asked) && from in asked && env.Reads(from, name) && !env.ValueStray(name)
    requires forall n :: n in next <==> env.ValueRefers(name, n)
    ensures Walks(env, roots, visited + {name}, asked + next)
  {
    assert env.Reachable(name, roots);
    forall n | n in next
      ensures n in env.Universe(roots)
      ensures forall r :: env.Reads(n, r) ==> env.Reachable(r, roots)
    {
      env.RefersInUniverse(name, n, roots);
      forall r | env.Reads(n, r)
        ensures env.Reachable(r, roots)
      {
        assert env.ValueRefers(name, n);
      }
    }
    ReadsInUniverse(env, roots, from, name);
    hide Environment.Reads, Environment.Reachable, Environment.ValueStray, Environment.ValueRefers, Environment.Universe;
  }

  lemma ReadsInUniverse(env: Environment, roots: set<string>, from: string, name: string)
    requires from in env.Universe(roots) && env.Reads(from, name)
    ensures name in env.Universe(roots)
  {
    hide Environment.AllNames;
  }

  /** A walk that asked for nothing it has not read visited exactly what is reachable. */
  lemma WalkEnds(env: Environment, roots: set<string>, visited: set<string>, asked: set<string>)
    requires Walks(env, roots, visited, asked)
    requires forall a, r :: a in asked && env.Reads(a, r) ==> r in visited
    ensures forall v :: v in visited <==> env.Reachable(v, roots)
    ensures forall v :: env.Reachable(v, roots) ==> !env.ValueStray(v)
  {
    hide Environment.Reads, Environment.ValueStray, Environment.ValueRefers, Environment.Universe;
    assert env.Closed(visited, roots);
  }

  ghost predicate FoundEach(env: Environment, files: seq<EnvFile>, pending: seq<Reference>) {
    forall i :: 0 <= i < |pending| ==> FoundBy(env, files, pending[i].where, pending[i].name)
  }

  /** What the first `n` references can read was visited. */
  ghost predicate ReadUpTo(env: Environment, pending: seq<Reference>, n: nat, visited: set<string>)
    requires n <= |pending|
  {
    forall i, r :: 0 <= i < n && env.Reads(pending[i].name, r) ==> r in visited
  }

  /** The variables to carry by reference are these, or some text or value reached holds a stray `$`. */
  ghost predicate CarriesReferenced(env: Environment, files: seq<EnvFile>, carried: Carried) {
    var roots := Roots(env, files);
    match carried
    case Every(where) =>
      && (FileStray(env, files) || exists v :: env.Reachable(v, roots) && env.ValueStray(v))
      && StrayStands(env, files, where)
    case Names(names) =>
      && !FileStray(env, files)
      && (forall v :: env.Reachable(v, roots) ==> !env.ValueStray(v))
      && (forall n :: n in names <==> env.Reachable(n, roots) && NamedByEntry(env.entries, n))
      && (forall n :: n in names ==> CarriedBy(env, files, n, names[n]))
  }

  /**
   * Follows each reference from the env files through the values it reaches, each name once, in whatever order a
   * reference's readings are taken.
   */
  method FollowReferences(env: Environment, files: seq<EnvFile>) returns (carried: Carried)
    ensures CarriesReferenced(env, files, carried)
  {
    hide *;
    ghost var roots := Roots(env, files);
    var found := ScanFiles(env, files);
    if found.Stray? {
      carried := Every(FoundIn(found.file, None));
      EveryByFile(env, files, found.file);
      return;
    }
    var pending := found.references;
    var visited: set<string>, names: map<string, Reason> := {}, map[];
    StartsWalk(env, roots);
    StartsFinding(env, files, pending);
    var i := 0;
    while i < |pending|
      invariant 0 <= i <= |pending|
      invariant Walks(env, roots, visited, NamesOf(pending)) && NamesVisited(env, files, visited, names)
      invariant FoundEach(env, files, pending) && ReadUpTo(env, pending, i, visited)
      decreases env.Universe(roots) - visited, |pending| - i
    {
      var reference := pending[i];
      var unvisited := env.Reach(reference.name) - visited;
      ghost var before, asked := visited, pending;
      NamedAt(pending, i);
      while unvisited != {}
        invariant unvisited + visited >= env.Reach(reference.name) && unvisited <= env.Reach(reference.name)
        invariant unvisited !! visited && before <= visited && (visited == before ==> pending == asked)
        invariant i < |pending| && reference == pending[i] && reference.name in NamesOf(pending)
        invariant Walks(env, roots, visited, NamesOf(pending)) && NamesVisited(env, files, visited, names)
        invariant FoundEach(env, files, pending) && ReadUpTo(env, pending, i, visited)
        decreases unvisited
      {
        var reached :| reached in unvisited;
        FoundAt(env, files, pending, i);
        ghost var was, wasNames := visited, names;
        unvisited, visited := unvisited - {reached}, visited + {reached};
        if NamedByEntry(env.entries, reached) {
          names := names[reached := Referenced(reference.where)];
        }
        NamesMore(env, files, was, wasNames, reference, reached);
        var scan := ScanValues(env, reached);
        var through := FoundIn(reference.where.file, Some(reached));
        if scan.stray {
          carried := Every(through);
          EveryByValue(env, files, was, NamesOf(pending), reference, reached);
          return;
        }
        var more := ReferencesTo(scan.names, through);
        VisitsOne(env, roots, was, NamesOf(pending), reference.name, reached, NamesOf(more)) by {
          NamesOfThese(env, reached, scan.names, through);
        }
        NamesOfMore(pending, more);
        FoundReaches(env, files, reference, reached);
        FoundMore(env, files, pending, reached, scan.names, through);
        ReadMore(env, pending, more, i, was, visited);
        pending := pending + more;
      }
      ReadNext(env, pending, i, visited);
      UniverseShrinks(env, roots, before, visited, NamesOf(pending));
      i := i + 1;
    }
    WalkIsRead(env, pending, visited);
    WalkEnds(env, roots, visited, NamesOf(pending));
    carried := Names(names);
    NamesCarry(env, files, visited, names);
  }

  lemma EveryByFile(env: Environment, files: seq<EnvFile>, file: string)
    requires FileStray(env, files) && FirstStray(env, files, file)
    ensures CarriesReferenced(env, files, Every(FoundIn(file, None)))
  {
    hide FirstStray;
  }

  lemma EveryByValue(
      env: Environment, files: seq<EnvFile>, visited: set<string>, asked: set<string>, reference: Reference,
      reached: string)
    requires Walks(env, Roots(env, files), visited, asked) && reference.name in asked
    requires FoundBy(env, files, reference.where, reference.name) && env.Reads(reference.name, reached)
    requires env.ValueStray(reached) && !FileStray(env, files)
    ensures CarriesReferenced(env, files, Every(FoundIn(reference.where.file, Some(reached))))
  {
    assert env.Reachable(reached, Roots(env, files));
    FoundReaches(env, files, reference, reached);
    hide Environment.Reachable, Environment.ValueStray, FileStray, FileRoots, Roots, FoundBy;
  }

  /** What a reference found there can read is reached from the file it was found in. */
  lemma FoundReaches(env: Environment, files: seq<EnvFile>, reference: Reference, reached: string)
    requires FoundBy(env, files, reference.where, reference.name) && env.Reads(reference.name, reached)
    ensures env.Reachable(reached, FileRoots(env, files, reference.where.file))
  {
    var roots := FileRoots(env, files, reference.where.file);
    if reference.where.through.None? { RefersAtRoot(env, files, reference.where.file, reference.name); }
    hide FileRoots, FileRefers, Environment.Reads, Environment.ValueRefers;
    forall s | env.Closed(s, roots)
      ensures reached in s
    {
      if reference.where.through.None? {
        assert reference.name in roots;
      } else {
        assert reference.where.through.value in s;
      }
    }
  }

  lemma RefersAtRoot(env: Environment, files: seq<EnvFile>, file: string, name: string)
    requires FileRefers(env, files, file, name)
    ensures name in FileRoots(env, files, file)
  {
    var i :| 0 <= i < |files| && files[i].path == file && files[i].text.Some?
             && name in env.scan(files[i].text.value).names;
    var names := env.scan(files[i].text.value).names;
    var j :| 0 <= j < |names| && names[j] == name;
    assert env.scan(files[i].text.value).names[j] in Roots(env, files);
  }

  lemma StartsFinding(env: Environment, files: seq<EnvFile>, pending: seq<Reference>)
    requires forall r :: r in pending ==> FoundBy(env, files, r.where, r.name)
    ensures FoundEach(env, files, pending) && ReadUpTo(env, pending, 0, {}) && NamesVisited(env, files, {}, map[])
  {
  }

  lemma NamedAt(pending: seq<Reference>, i: nat)
    requires i < |pending|
    ensures pending[i].name in NamesOf(pending)
  {
  }

  lemma FoundAt(env: Environment, files: seq<EnvFile>, pending: seq<Reference>, i: nat)
    requires FoundEach(env, files, pending) && i < |pending|
    ensures FoundBy(env, files, pending[i].where, pending[i].name)
  {
  }

  lemma NamesMore(
      env: Environment, files: seq<EnvFile>, visited: set<string>, names: map<string, Reason>, reference: Reference,
      reached: string)
    requires NamesVisited(env, files, visited, names) && FoundBy(env, files, reference.where, reference.name)
    requires env.Reads(reference.name, reached)
    ensures NamesVisited(
              env, files, visited + {reached},
              if NamedByEntry(env.entries, reached) then names[reached := Referenced(reference.where)] else names)
  {
    hide FoundBy, Environment.Reads, NamedByEntry;
  }

  lemma NamesOfThese(env: Environment, reached: string, names: seq<string>, where: FoundIn)
    requires forall n :: n in names <==> env.ValueRefers(reached, n)
    ensures forall n :: n in NamesOf(ReferencesTo(names, where)) <==> env.ValueRefers(reached, n)
  {
    var references := ReferencesTo(names, where);
    hide Environment.ValueRefers;
    forall n
      ensures n in NamesOf(references) <==> n in names
    {
      if n in names {
        var i :| 0 <= i < |names| && names[i] == n;
        assert references[i].name == n;
      }
    }
  }

  lemma FoundMore(
      env: Environment, files: seq<EnvFile>, pending: seq<Reference>, reached: string, names: seq<string>,
      where: FoundIn)
    requires FoundEach(env, files, pending) && env.Reachable(reached, FileRoots(env, files, where.file))
    requires where.through == Some(reached) && forall n :: n in names <==> env.ValueRefers(reached, n)
    ensures FoundEach(env, files, pending + ReferencesTo(names, where))
  {
    var more := ReferencesTo(names, where);
    hide FileRefers, FileRoots, Environment.ValueRefers, Environment.Reachable, Environment.Reads;
    forall i | 0 <= i < |pending + more|
      ensures FoundBy(env, files, (pending + more)[i].where, (pending + more)[i].name)
    {
      if i >= |pending| { assert (pending + more)[i].name == names[i - |pending|]; }
    }
  }

  lemma ReadMore(
      env: Environment, pending: seq<Reference>, more: seq<Reference>, n: nat, was: set<string>, visited: set<string>)
    requires n <= |pending| && ReadUpTo(env, pending, n, was) && was <= visited
    ensures ReadUpTo(env, pending + more, n, visited)
  {
    hide Environment.Reads;
    assert forall i :: 0 <= i < n ==> (pending + more)[i] == pending[i];
  }

  lemma ReadNext(env: Environment, pending: seq<Reference>, n: nat, visited: set<string>)
    requires n < |pending| && ReadUpTo(env, pending, n, visited) && env.Reach(pending[n].name) <= visited
    ensures ReadUpTo(env, pending, n + 1, visited)
  {
    hide Environment.Reads;
  }

  lemma UniverseShrinks(
      env: Environment, roots: set<string>, before: set<string>, visited: set<string>, asked: set<string>)
    requires Walks(env, roots, visited, asked) && before <= visited
    ensures env.Universe(roots) - visited <= env.Universe(roots) - before
    ensures visited != before ==> env.Universe(roots) - visited < env.Universe(roots) - before
  {
    if visited != before {
      var v :| v in visited && v !in before;
      assert v in env.Universe(roots) - before;
    }
  }

  lemma WalkIsRead(env: Environment, pending: seq<Reference>, visited: set<string>)
    requires ReadUpTo(env, pending, |pending|, visited)
    ensures forall a, r :: a in NamesOf(pending) && env.Reads(a, r) ==> r in visited
  {
    hide Environment.Reads;
  }

  lemma NamesCarry(env: Environment, files: seq<EnvFile>, visited: set<string>, names: map<string, Reason>)
    requires NamesVisited(env, files, visited, names) && !FileStray(env, files)
    requires forall v :: v in visited <==> env.Reachable(v, Roots(env, files))
    requires forall v :: env.Reachable(v, Roots(env, files)) ==> !env.ValueStray(v)
    ensures CarriesReferenced(env, files, Names(names))
  {
    hide Environment.Reachable, Environment.ValueStray, FileStray, Roots, CarriedBy, NamedByEntry;
  }

  predicate Begun(prefixes: seq<string>, name: string) {
    exists i :: 0 <= i < |prefixes| && StartsWith(name, prefixes[i])
  }

  ghost predicate BegunBy(prefixes: seq<string>, name: string, reason: Reason) {
    reason.Prefixed? && reason.prefix in prefixes && StartsWith(name, reason.prefix)
  }

  /** A set variable an entry names that an env prefix begins. */
  predicate IsPrefixed(env: Environment, prefixes: seq<string>, name: string) {
    name in env.values && NamedByEntry(env.entries, name) && Begun(prefixes, name)
  }

  /** The first of the prefixes that begins the name. */
  method FirstPrefix(prefixes: seq<string>, name: string) returns (prefix: Option<string>)
    ensures prefix.Some? <==> Begun(prefixes, name)
    ensures prefix.Some? ==> prefix.value in prefixes && StartsWith(name, prefix.value)
  {
    for i := 0 to |prefixes|
      invariant forall k :: 0 <= k < i ==> !StartsWith(name, prefixes[k])
    {
      if StartsWith(name, prefixes[i]) { return Some(prefixes[i]); }
    }
    return None;
  }

  /**
   * Adds each set variable an entry names that one of the env prefixes begins; those carried already keep their
   * reason.
   */
  method WithPrefixes(env: Environment, prefixes: seq<string>, referenced: map<string, Reason>)
      returns (names: map<string, Reason>)
    ensures forall n :: n in names <==> n in referenced || IsPrefixed(env, prefixes, n)
    ensures forall n :: n in referenced ==> names[n] == referenced[n]
    ensures forall n :: n in names && n !in referenced ==>
              names[n].Prefixed? && names[n].prefix in prefixes && StartsWith(n, names[n].prefix)
  {
    hide Begun, NamedByEntry, StartsWith;
    names := referenced;
    var todo := env.values.Keys;
    while todo != {}
      invariant todo <= env.values.Keys
      invariant forall n :: n in names <==>
                  n in referenced || (IsPrefixed(env, prefixes, n) && n !in todo)
      invariant forall n :: n in referenced ==> names[n] == referenced[n]
      invariant forall n :: n in names && n !in referenced ==>
                  names[n].Prefixed? && names[n].prefix in prefixes && StartsWith(n, names[n].prefix)
      decreases todo
    {
      var name :| name in todo;
      todo := todo - {name};
      if name !in names && NamedByEntry(env.entries, name) {
        var prefix := FirstPrefix(prefixes, name);
        if prefix.Some? { names := names[name := Prefixed(prefix.value)]; }
      }
    }
  }

  /**
   * Every listed or declared variable to count by value, or that all are, since a `$` begins no reference
   * somewhere.
   */
  method CarriedTo(env: Environment, files: seq<EnvFile>, prefixes: seq<string>) returns (carried: Carried)
    ensures carried.Every? <==>
            FileStray(env, files) || exists v :: env.Reachable(v, Roots(env, files)) && env.ValueStray(v)
    ensures carried.Every? ==> StrayStands(env, files, carried.where)
    ensures carried.Names? ==>
              forall n :: n in carried.names <==>
                || (env.Reachable(n, Roots(env, files)) && NamedByEntry(env.entries, n))
                || IsPrefixed(env, prefixes, n)
    ensures carried.Names? ==>
              forall n :: n in carried.names ==>
                if env.Reachable(n, Roots(env, files)) && NamedByEntry(env.entries, n)
                then CarriedBy(env, files, n, carried.names[n])
                else BegunBy(prefixes, n, carried.names[n])
  {
    hide StrayStands, Environment.Reachable, Environment.ValueStray, FileStray, Roots, CarriedBy, NamedByEntry, Begun;
    carried := FollowReferences(env, files);
    if carried.Every? { return; }
    var names := WithPrefixes(env, prefixes, carried.names);
    carried := Names(names);
  }

  /** The first workspace that carries every variable. */
  ghost predicate FirstEvery(workspaces: seq<Carried>, i: int) {
    0 <= i < |workspaces| && workspaces[i].Every? && forall k :: 0 <= k < i ==> workspaces[k].Names?
  }

  /** The first workspace that carries the name. */
  ghost predicate FirstNaming(workspaces: seq<Carried>, name: string, i: int) {
    && 0 <= i < |workspaces| && workspaces[i].Names? && name in workspaces[i].names
    && forall k :: 0 <= k < i && workspaces[k].Names? ==> name !in workspaces[k].names
  }

  /** The discovery's: every variable when a workspace carries every one, and otherwise each any workspace carries. */
  method CarriedUnion(workspaces: seq<Carried>) returns (union: Carried)
    ensures union.Every? <==> exists i :: 0 <= i < |workspaces| && workspaces[i].Every?
    ensures union.Every? ==> exists i :: FirstEvery(workspaces, i) && workspaces[i] == union
    ensures union.Names? ==> forall n :: n in union.names <==>
              exists i :: 0 <= i < |workspaces| && workspaces[i].Names? && n in workspaces[i].names
    ensures union.Names? ==> forall n :: n in union.names ==>
              exists i :: FirstNaming(workspaces, n, i) && workspaces[i].names[n] == union.names[n]
  {
    var names: map<string, Reason> := map[];
    for i := 0 to |workspaces|
      invariant forall k :: 0 <= k < i ==> workspaces[k].Names?
      invariant forall n :: n in names ==>
                  exists k :: FirstNaming(workspaces, n, k) && workspaces[k].names[n] == names[n]
      invariant forall n :: n in names <==> exists k :: 0 <= k < i && workspaces[k].Names? && n in workspaces[k].names
    {
      match workspaces[i] {
        case Every(_) =>
          assert FirstEvery(workspaces, i);
          return workspaces[i];
        case Names(more) =>
          assert forall n :: n in more && n !in names ==> FirstNaming(workspaces, n, i);
          names := more + names;
      }
    }
    union := Names(names);
  }
}
