/** Where a reach probe stands: at the start of the step that holds a change in a syntax tree. */
module ProbeSteps {
  import opened Options

  /** The kinds of node that decide where a probe may stand; any other is told apart by its name alone. */
  datatype Kind =
    | Program
    | BlockStatement
    | StaticBlock
    | SwitchCase
    | LabeledStatement
    | OtherStatement(name: string)
    | ModuleDeclaration
    | PropertyDefinition
    | AccessorProperty
    | OtherKind(name: string)

  datatype FieldName = BodyField | ConsequentField | ValueField | OtherField(name: string)

  /** The parent's kind of node and the field that holds the node, or the program itself. */
  datatype Role = RootRole | HeldAs(parent: Kind, field: FieldName)

  /**
   * A node of the parser's tree, with its child nodes field by field. A node is a function's when it has a list of
   * parameters; `declares` and `global` mark ambient declarations, `directive` a directive of a prologue.
   */
  datatype Node = Node(
    kind: Kind, start: nat, end: nat, fields: seq<Field>, isFunction: bool, declares: bool, global: bool,
    directive: bool)

  /** A field's nodes in order: any number when it holds a list, at most one otherwise. */
  datatype Field = Field(name: FieldName, isList: bool, nodes: seq<Node>)

  datatype Span = Span(start: nat, end: nat)

  datatype Insertion = Insertion(offset: nat, text: string)

  datatype Step = Step(start: nat, inList: bool, nodeKind: Kind, role: Role, insertions: seq<Insertion>)

  datatype StepChoice = Found(step: Step) | NotFound(nodeKind: Kind, role: Role)

  /** A node on the way to the change, and the field of the node before it that holds it. */
  datatype PathStep = PathStep(node: Node, field: Option<FieldName>)

  const REACH_PROBE_CALL := "globalThis.__rtTestReach?.()"
  const PROBE_STATEMENT := REACH_PROBE_CALL + "; "
  const CLOSING_PROBE_STATEMENT := ";" + REACH_PROBE_CALL + ";"
  const BLOCK_OPENING := "{ " + PROBE_STATEMENT
  const BLOCK_CLOSING := " }"
  const WRAP_OPENING := "(" + REACH_PROBE_CALL + ", "
  const WRAP_CLOSING := ")"

  /** The field holding the statement list of a node kind that owns one. */
  function ListFieldOf(kind: Kind): Option<FieldName> {
    if kind.SwitchCase? then Some(ConsequentField)
    else if kind.Program? || kind.BlockStatement? || kind.StaticBlock? then Some(BodyField)
    else None
  }

  predicate IsBraced(kind: Kind) { kind.BlockStatement? || kind.StaticBlock? }

  predicate Encloses(node: Node, span: Span, opensNode: bool) {
    if span.start != span.end then node.start <= span.start && span.end <= node.end
    else (if opensNode then node.start <= span.start else node.start < span.start) && span.start < node.end
  }

  function FirstEnclosing(nodes: seq<Node>, span: Span, opensNode: bool): (child: Option<Node>)
    ensures child.Some? ==> child.value in nodes && Encloses(child.value, span, opensNode)
    ensures child.None? ==> forall n :: n in nodes ==> !Encloses(n, span, opensNode)
  {
    if nodes == [] then None
    else if Encloses(nodes[0], span, opensNode) then Some(nodes[0])
    else FirstEnclosing(nodes[1..], span, opensNode)
  }

  /** The first child, field by field, that encloses the span. */
  function EnclosingChild(fields: seq<Field>, span: Span, opensNode: bool): (child: Option<PathStep>)
    ensures child.Some? ==>
              Encloses(child.value.node, span, opensNode)
              && exists f :: f in fields && Some(f.name) == child.value.field && child.value.node in f.nodes
    ensures child.None? ==> forall f, n :: f in fields && n in f.nodes ==> !Encloses(n, span, opensNode)
  {
    if fields == [] then None
    else
      var found := FirstEnclosing(fields[0].nodes, span, opensNode);
      if found.Some? then Some(PathStep(found.value, Some(fields[0].name)))
      else EnclosingChild(fields[1..], span, opensNode)
  }

  predicate IsChild(child: Node, node: Node) {
    exists f :: f in node.fields && child in f.nodes
  }

  /** The path from `here` down to the deepest node enclosing the span. */
  function PathFrom(here: PathStep, span: Span, opensNode: bool): (path: seq<PathStep>)
    ensures path != [] && path[0] == here
    decreases here.node
  {
    var next := EnclosingChild(here.node.fields, span, opensNode);
    if next.None? then [here]
    else
      assert next.value.node < here.node by {
        var f :| f in here.node.fields && Some(f.name) == next.value.field && next.value.node in f.nodes;
      }
      [here] + PathFrom(next.value, span, opensNode)
  }

  lemma {:induction false} PathNext(here: PathStep, span: Span, opensNode: bool)
    ensures var next, path := EnclosingChild(here.node.fields, span, opensNode), PathFrom(here, span, opensNode);
            && path[0] == here
            && (next.None? ==> path[1..] == [])
            && (next.Some? ==> next.value.node < here.node && path[1..] == PathFrom(next.value, span, opensNode))
  {
    var next := EnclosingChild(here.node.fields, span, opensNode);
    if next.Some? {
      var f :| f in here.node.fields && Some(f.name) == next.value.field && next.value.node in f.nodes;
    }
  }

  /** Descends one child at a time to the deepest node that encloses the span. */
  method EnclosingPath(root: Node, span: Span, opensNode: bool) returns (path: seq<PathStep>)
    ensures path == PathFrom(PathStep(root, None), span, opensNode)
  {
    hide PathFrom, EnclosingChild;
    var here := PathStep(root, None);
    path := [here];
    PathNext(here, span, opensNode);
    assert path + PathFrom(here, span, opensNode)[1..] == PathFrom(here, span, opensNode);
    while true
      invariant path + PathFrom(here, span, opensNode)[1..] == PathFrom(PathStep(root, None), span, opensNode)
      decreases here.node
    {
      PathNext(here, span, opensNode);
      var next := EnclosingChild(here.node.fields, span, opensNode);
      if next.None? {
        assert path + [] == path;
        return;
      }
      PathNext(next.value, span, opensNode);
      ghost var rest := PathFrom(next.value, span, opensNode);
      assert path + rest == (path + [next.value]) + rest[1..] by {
        assert rest == [next.value] + rest[1..];
      }
      path := path + [next.value];
      here := next.value;
    }
  }

  function Children(node: Node): seq<Node> { NodesOf(node.fields) }

  function NodesOf(fields: seq<Field>): (nodes: seq<Node>)
    ensures forall n :: n in nodes <==> exists f :: f in fields && n in f.nodes
  {
    if fields == [] then [] else fields[0].nodes + NodesOf(fields[1..])
  }

  predicate Apart(a: Node, b: Node) { a.end <= b.start || b.end <= a.start }

  predicate Within(a: Node, b: Node) { b.start <= a.start && a.end <= b.end }

  /** The node is reached from `root` by children that each lie within the node that holds them. */
  ghost predicate NestedIn(node: Node, root: Node)
    decreases root
  {
    node == root || exists f, n :: f in root.fields && n in f.nodes && Within(n, root) && NestedIn(node, n)
  }

  /**
   * What the parser's trees keep. A child lies within its parent, or outside it altogether as a class's decorators do
   * when they are written before its `export`. Two children may stand on one span, as the key and the value of `{ a }`
   * do, but a function with a body in one of them overlaps no other.
   */
  ghost predicate WellFormed(node: Node)
    decreases node
  {
    && node.start <= node.end
    && (forall f, g :: f in node.fields && g in node.fields && f.name == g.name ==> f == g)
    && (forall f, n :: f in node.fields && n in f.nodes ==> ChildLies(n, node) && WellFormed(n))
    && FunctionsApart(Children(node))
    && ListLies(node)
    && (FunctionBody(node).Some? ==> BodyStands(node, FunctionBody(node).value))
  }

  /** The tree of a whole module. */
  ghost predicate ProgramTree(root: Node) { root.kind.Program? && WellFormed(root) }

  /** A program may begin after its first line, `#!` and what follows, which holds no step. */
  ghost predicate ChildLies(child: Node, node: Node) {
    Within(child, node) || (Apart(child, node) && (node.kind.Program? ==> Plain(child)))
  }

  ghost predicate FunctionsApart(children: seq<Node>) {
    forall i, j, fn ::
      0 <= i < |children| && 0 <= j < |children| && i != j && NestedIn(fn, children[i]) && FunctionBody(fn).Some? ==>
        Apart(fn, children[j])
  }

  /** A statement list's members stand in text order within its owner, and between the owner's braces if it has them. */
  ghost predicate ListLies(owner: Node) {
    && (ListFieldOf(owner.kind).Some? ==>
          var members := MembersOf(owner, ListFieldOf(owner.kind).value);
          Ascending(members) && forall n :: n in members ==> LiesIn(n, owner))
    && (IsBraced(owner.kind) ==> owner.start + 2 <= owner.end)
  }

  ghost predicate LiesIn(member: Node, owner: Node) {
    && Within(member, owner) && member.start <= member.end
    && (IsBraced(owner.kind) ==> owner.start < member.start && member.end < owner.end)
  }

  /**
   * A function's body stands behind the function's first character, and one that owns a list is braced. A function is no
   * statement, and a child at its first character, a lone parameter or its type parameters, holds no step.
   */
  ghost predicate BodyStands(fn: Node, body: Node) {
    && Within(body, fn) && fn.start < body.start
    && (ListFieldOf(body.kind).Some? ==> IsBraced(body.kind))
    && !HoldsSteps(fn.kind)
    && forall f, n :: f in fn.fields && n in f.nodes ==> fn.start < n.start || Plain(n)
  }

  /** A node of such a kind decides for its children whether they are steps. */
  predicate HoldsSteps(kind: Kind) { ListFieldOf(kind).Some? || IsStatement(kind) || OwnsInitializer(kind) }

  /** Nothing at or below the node is a step: no statement, no initializer, and no function with a body. */
  ghost predicate Plain(node: Node)
    decreases node
  {
    && !HoldsSteps(node.kind) && FunctionBody(node).None?
    && forall f, n :: f in node.fields && n in f.nodes ==> Plain(n)
  }

  ghost predicate Ascending(nodes: seq<Node>) {
    && (forall i, j :: 0 <= i < j < |nodes| ==> nodes[i].end <= nodes[j].start)
    && (forall i :: 0 <= i < |nodes| ==> nodes[i].start <= nodes[i].end)
  }

  function FieldOf(fields: seq<Field>, name: FieldName): (field: Option<Field>)
    ensures field.Some? ==> field.value in fields && field.value.name == name
    ensures field.None? ==> forall f :: f in fields ==> f.name != name
  {
    if fields == [] then None
    else if fields[0].name == name then Some(fields[0])
    else FieldOf(fields[1..], name)
  }

  function MembersOf(owner: Node, name: FieldName): (members: seq<Node>)
    ensures forall n :: n in members ==> exists f :: f in owner.fields && f.isList && f.nodes == members
  {
    var field := FieldOf(owner.fields, name);
    if field.Some? && field.value.isList then field.value.nodes else []
  }

  function FieldNode(node: Node, name: FieldName): (child: Option<Node>)
    ensures child.Some? ==> exists f :: f in node.fields && f.name == name && child.value in f.nodes
  {
    var field := FieldOf(node.fields, name);
    if field.Some? && !field.value.isList && field.value.nodes != [] then Some(field.value.nodes[0]) else None
  }


  /** How many directives a list begins with. */
  function Prologue(members: seq<Node>): (n: nat)
    ensures n <= |members|
  {
    if members == [] || !members[0].directive then 0 else 1 + Prologue(members[1..])
  }

  /** A probe statement at `index` of a statement list, never inside the list's directive prologue. */
  function ListPoint(owner: Node, field: FieldName, index: int): Option<Step> {
    var members := MembersOf(owner, field);
    var at := if index > Prologue(members) then index else Prologue(members);
    if at < |members| then
      Some(Step(members[at].start, true, members[at].kind, HeldAs(owner.kind, field),
                [Insertion(members[at].start, PROBE_STATEMENT)]))
    else
      var end := if 0 < at == |members| then Some(members[at - 1].end) else EmptyListEnd(owner);
      if end.None? then None
      else
        Some(Step(end.value, true, owner.kind, HeldAs(owner.kind, field), [Insertion(end.value, CLOSING_PROBE_STATEMENT)]))
  }

  function EmptyListEnd(owner: Node): Option<nat> {
    if IsBraced(owner.kind) && owner.end > 0 then Some(owner.end - 1) else None
  }

  function Surrounded(node: Node, role: Role, opening: string, closing: string): Step {
    Step(node.start, false, node.kind, role, [Insertion(node.start, opening), Insertion(node.end, closing)])
  }

  /** A function without a body, an overload or an abstract method, runs nothing and is no step. */
  function FunctionBody(node: Node): Option<Node> {
    if node.isFunction then FieldNode(node, BodyField) else None
  }

  function BodyHead(fn: Node, body: Node): Option<Step> {
    var field := ListFieldOf(body.kind);
    var step := if field.None? then Some(Surrounded(body, HeldAs(fn.kind, BodyField), WRAP_OPENING, WRAP_CLOSING))
                else ListPoint(body, field.value, 0);
    if step.None? then None else Some(step.value.(start := fn.start, inList := false))
  }

  predicate IsStatement(kind: Kind) {
    kind.BlockStatement? || kind.LabeledStatement? || kind.OtherStatement?
  }

  /** A class field's initializer runs when an instance is made, as a function's body runs when it is called. */
  predicate OwnsInitializer(kind: Kind) { kind.PropertyDefinition? || kind.AccessorProperty? }

  function IndexOf(members: seq<Node>, node: Node): (i: int)
    ensures -1 <= i < |members| && (i >= 0 ==> members[i] == node)
    ensures i == -1 ==> node !in members
  {
    if members == [] then -1
    else if members[0] == node then 0
    else
      var rest := IndexOf(members[1..], node);
      if rest == -1 then -1 else rest + 1
  }

  function StepOn(here: PathStep, holder: Option<Node>): Option<Step> {
    var body := FunctionBody(here.node);
    if body.Some? then BodyHead(here.node, body.value)
    else if holder.None? || here.field.None? then None
    else
      var kind, field := holder.value.kind, here.field.value;
      if ListFieldOf(kind) == Some(field) then
        ListPoint(holder.value, field, IndexOf(MembersOf(holder.value, field), here.node))
      else if OwnsInitializer(kind) && field.ValueField? then
        Some(Surrounded(here.node, HeldAs(kind, field), WRAP_OPENING, WRAP_CLOSING))
      else if IsStatement(here.node.kind) && IsStatement(kind) && !kind.LabeledStatement? then
        Some(Surrounded(here.node, HeldAs(kind, field), BLOCK_OPENING, BLOCK_CLOSING))
      else None
  }

  /** Walks out from the change to the first node that is a step of its own. */
  function EnclosingStep(path: seq<PathStep>): Option<Step> {
    if path == [] then None
    else
      var last := |path| - 1;
      var step := StepOn(path[last], if last > 0 then Some(path[last - 1].node) else None);
      if step.Some? then step else EnclosingStep(path[..last])
  }

  function FirstEndingAfter(members: seq<Node>, start: nat): (i: nat)
    ensures i <= |members| && (i < |members| ==> members[i].end > start)
    ensures forall k :: 0 <= k < i ==> members[k].end <= start
  {
    if members == [] || members[0].end > start then 0 else 1 + FirstEndingAfter(members[1..], start)
  }

  function NoStep(path: seq<PathStep>): StepChoice
    requires path != []
  {
    var last := path[|path| - 1];
    NotFound(last.node.kind,
             if |path| < 2 || last.field.None? then RootRole else HeldAs(path[|path| - 2].node.kind, last.field.value))
  }

  /** The change sits directly in a statement list, between its statements or across several. */
  function ChangedListPoint(path: seq<PathStep>, span: Span): Option<StepChoice>
    requires path != []
  {
    var owner := path[|path| - 1].node;
    var field := ListFieldOf(owner.kind);
    if field.None? then None
    else
      var members := MembersOf(owner, field.value);
      if owner.kind.SwitchCase? && (members == [] || span.start < members[0].start) then None
      else
        var step := ListPoint(owner, field.value, FirstEndingAfter(members, span.start));
        if step.None? then Some(NoStep(path)) else Some(Found(step.value))
  }

  predicate IsAmbient(node: Node) { node.declares || (node.kind.ModuleDeclaration? && node.global) }

  function StepOfPath(path: seq<PathStep>, span: Span): StepChoice
    requires path != []
  {
    if exists p :: p in path && IsAmbient(p.node) then NoStep(path)
    else
      var inList := ChangedListPoint(path, span);
      if inList.Some? then inList.value
      else
        var step := EnclosingStep(path);
        if step.Some? then Found(step.value) else NoStep(path)
  }

  /** The step that holds every character of `span` in the tree under `root`, or why the change has none. */
  function StepAt(root: Node, span: Span, opensNode: bool): StepChoice {
    StepOfPath(PathFrom(PathStep(root, None), span, opensNode), span)
  }

  /** Children lie within their parents; nothing is said of how siblings stand to one another. */
  ghost predicate Nests(node: Node)
    decreases node
  {
    && node.start <= node.end
    && (forall f, g :: f in node.fields && g in node.fields && f.name == g.name ==> f == g)
    && forall f, n :: f in node.fields && n in f.nodes ==> Within(n, node) && Nests(n)
  }

  /** Where no step is at stake siblings may overlap at will: in `{ a }`, or in an import of one name. */
  lemma {:induction false} PlainMayOverlap(node: Node)
    requires Plain(node) && Nests(node)
    ensures WellFormed(node)
    decreases node
  {
    forall f, n | f in node.fields && n in f.nodes
      ensures ChildLies(n, node) && WellFormed(n) && Plain(n)
    {
      PlainMayOverlap(n);
    }
    PlainIs(node);
    PlainApart(Children(node));
  }

  lemma {:induction false} PlainApart(children: seq<Node>)
    requires forall n :: n in children ==> Plain(n)
    ensures FunctionsApart(children)
  {
    hide Plain, FunctionBody, NestedIn;
    forall i, fn | 0 <= i < |children| && NestedIn(fn, children[i])
      ensures FunctionBody(fn).None?
    {
      PlainNested(fn, children[i]);
    }
  }

  lemma {:induction false} PlainNested(node: Node, root: Node)
    requires Plain(root) && NestedIn(node, root)
    ensures Plain(node) && FunctionBody(node).None?
    decreases root
  {
    if node != root {
      var f, n :| f in root.fields && n in f.nodes && Within(n, root) && NestedIn(node, n);
      PlainNested(node, n);
    }
  }

  lemma {:induction false} ChildWellFormed(node: Node, child: Node)
    requires WellFormed(node) && IsChild(child, node)
    ensures WellFormed(child) && child < node && ChildLies(child, node) && child.start <= child.end
  {
    var f :| f in node.fields && child in f.nodes;
  }

  lemma {:induction false} NestedLies(node: Node, root: Node)
    requires WellFormed(root) && NestedIn(node, root)
    ensures WellFormed(node) && Within(node, root)
    decreases root
  {
    if node != root {
      var f, n :| f in root.fields && n in f.nodes && Within(n, root) && NestedIn(node, n);
      assert IsChild(n, root);
      ChildWellFormed(root, n);
      NestedLies(node, n);
      hide WellFormed, NestedIn;
    }
  }

  lemma {:induction false} WellFormedKeeps(node: Node)
    requires WellFormed(node)
    ensures FunctionsApart(Children(node)) && ListLies(node) && node.start <= node.end
    ensures FunctionBody(node).Some? ==> BodyStands(node, FunctionBody(node).value)
  {
  }

  /** Of a node's children, only the one that holds a function with a body encloses a span the function encloses. */
  lemma {:induction false} OneEncloses(node: Node, holder: Node, child: Node, fn: Node, span: Span, opensNode: bool)
    requires WellFormed(node) && IsChild(holder, node) && IsChild(child, node)
    requires NestedIn(fn, holder) && FunctionBody(fn).Some? && span.start <= span.end
    requires Encloses(fn, span, opensNode) && Encloses(child, span, opensNode)
    ensures child == holder
  {
    var children := Children(node);
    assert holder in children && child in children;
    WellFormedKeeps(node);
    hide WellFormed, NodesOf, FunctionBody, NestedIn;
    var i :| 0 <= i < |children| && children[i] == holder;
    var j :| 0 <= j < |children| && children[j] == child;
    if i != j {
      assert NestedIn(fn, children[i]) && Apart(fn, children[j]);
    }
  }

  /**
   * The path misses no function: each one with a body that encloses the span is on it, though each step looks only among
   * the children of the one before and takes the first that encloses the span.
   */
  lemma {:induction false} PathHoldsAll(here: PathStep, span: Span, opensNode: bool, fn: Node)
    requires WellFormed(here.node) && NestedIn(fn, here.node) && span.start <= span.end
    requires FunctionBody(fn).Some? && Encloses(fn, span, opensNode)
    ensures exists i :: 0 <= i < |PathFrom(here, span, opensNode)| && PathFrom(here, span, opensNode)[i].node == fn
    decreases here.node
  {
    var path := PathFrom(here, span, opensNode);
    PathNext(here, span, opensNode);
    if fn == here.node {
      assert path[0].node == fn;
    } else {
      var f, n :| f in here.node.fields && n in f.nodes && Within(n, here.node) && NestedIn(fn, n);
      assert IsChild(n, here.node);
      ChildWellFormed(here.node, n);
      NestedLies(fn, n);
      assert Encloses(n, span, opensNode);
      var next := EnclosingChild(here.node.fields, span, opensNode);
      assert next.Some? && IsChild(next.value.node, here.node);
      OneEncloses(here.node, n, next.value.node, fn, span, opensNode);
      hide WellFormed, NestedIn, PathFrom, EnclosingChild, Encloses, FunctionBody;
      PathHoldsAll(next.value, span, opensNode, fn);
      var i :| 0 <= i < |PathFrom(next.value, span, opensNode)| && PathFrom(next.value, span, opensNode)[i].node == fn;
      assert path[1..][i] == path[i + 1];
    }
  }

  /** The insertions stand in text order, all of them from `start` to `end`. */
  ghost predicate InsertsWithin(step: Step, start: nat, end: nat) {
    && step.insertions != []
    && (forall i :: 0 <= i < |step.insertions| ==> start <= step.insertions[i].offset <= end)
    && forall i, j :: 0 <= i < j < |step.insertions| ==> step.insertions[i].offset <= step.insertions[j].offset
  }

  /** Each node of the path encloses the span and is a child of the one before it, held by the field listed with it. */
  ghost predicate Descends(path: seq<PathStep>, span: Span, opensNode: bool) {
    forall i :: 0 <= i < |path| - 1 ==> Follows(path[i + 1], path[i].node, span, opensNode)
  }

  ghost predicate Follows(here: PathStep, holder: Node, span: Span, opensNode: bool) {
    HeldBy(here, holder) && Encloses(here.node, span, opensNode)
  }

  ghost predicate HeldBy(here: PathStep, holder: Node) {
    exists f :: f in holder.fields && Some(f.name) == here.field && here.node in f.nodes
  }

  lemma {:induction false} PathDescends(here: PathStep, span: Span, opensNode: bool)
    ensures Descends(PathFrom(here, span, opensNode), span, opensNode)
    decreases here.node
  {
    hide *;
    PathNext(here, span, opensNode);
    var path := PathFrom(here, span, opensNode);
    var next := EnclosingChild(here.node.fields, span, opensNode);
    if next.Some? {
      PathDescends(next.value, span, opensNode);
      PathNext(next.value, span, opensNode);
      ChildFollows(here, span, opensNode);
      DescendsFrom(path, span, opensNode);
    } else {
      DescendsAlone(path, span, opensNode);
    }
  }

  lemma {:induction false} ChildFollows(here: PathStep, span: Span, opensNode: bool)
    requires EnclosingChild(here.node.fields, span, opensNode).Some?
    ensures Follows(EnclosingChild(here.node.fields, span, opensNode).value, here.node, span, opensNode)
  {
    hide EnclosingChild, Encloses;
  }

  lemma {:induction false} DescendsAlone(path: seq<PathStep>, span: Span, opensNode: bool)
    requires |path| <= 1
    ensures Descends(path, span, opensNode)
  {
  }

  lemma {:induction false} DescendsFrom(path: seq<PathStep>, span: Span, opensNode: bool)
    requires |path| > 1 && Descends(path[1..], span, opensNode) && Follows(path[1], path[0].node, span, opensNode)
    ensures Descends(path, span, opensNode)
  {
    hide Follows;
    forall i | 0 <= i < |path| - 1
      ensures Follows(path[i + 1], path[i].node, span, opensNode)
    {
      if i > 0 {
        assert Follows(path[1..][i - 1 + 1], path[1..][i - 1].node, span, opensNode);
      }
    }
  }

  lemma {:induction false} HeldAt(path: seq<PathStep>, i: nat, span: Span, opensNode: bool)
    requires Descends(path, span, opensNode) && i + 1 < |path|
    ensures HeldBy(path[i + 1], path[i].node) && Encloses(path[i + 1].node, span, opensNode)
  {
    assert Follows(path[i + 1], path[i].node, span, opensNode);
    hide HeldBy, Encloses;
  }

  lemma {:induction false} PathWellFormed(path: seq<PathStep>, i: nat, span: Span, opensNode: bool)
    requires Descends(path, span, opensNode) && i < |path| && WellFormed(path[0].node)
    ensures WellFormed(path[i].node)
  {
    if i > 0 {
      PathWellFormed(path, i - 1, span, opensNode);
      HeldAt(path, i - 1, span, opensNode);
      HeldIsChild(path[i], path[i - 1].node);
      ChildWellFormed(path[i - 1].node, path[i].node);
    }
    hide WellFormed, Descends;
  }

  lemma {:induction false} HeldIsChild(here: PathStep, holder: Node)
    requires HeldBy(here, holder)
    ensures IsChild(here.node, holder)
  {
  }

  /** Below the root, nodes of a path lie within those before them: children that share a span with them are not apart. */
  lemma {:induction false} PathNests(path: seq<PathStep>, i: nat, j: nat, span: Span, opensNode: bool)
    requires Descends(path, span, opensNode) && 1 <= i <= j < |path| && WellFormed(path[0].node)
    requires span.start <= span.end
    ensures Within(path[j].node, path[i].node)
    decreases j
  {
    hide WellFormed, PathFrom, ChildLies;
    if i < j {
      PathNests(path, i, j - 1, span, opensNode);
      HeldAt(path, j - 1, span, opensNode);
      HeldAt(path, j - 2, span, opensNode);
      PathWellFormed(path, j - 1, span, opensNode);
      HeldIsChild(path[j], path[j - 1].node);
      ChildWellFormed(path[j - 1].node, path[j].node);
      NotApart(path[j].node, path[j - 1].node, span, opensNode);
    }
  }

  lemma {:induction false} NotApart(child: Node, node: Node, span: Span, opensNode: bool)
    requires ChildLies(child, node) && span.start <= span.end
    requires Encloses(child, span, opensNode) && Encloses(node, span, opensNode)
    ensures Within(child, node)
  {
    hide Plain;
  }

  lemma {:induction false} PlainChild(node: Node, child: Node)
    requires Plain(node) && IsChild(child, node)
    ensures Plain(child)
  {
  }

  lemma {:induction false} PlainIs(node: Node)
    requires Plain(node)
    ensures !HoldsSteps(node.kind) && FunctionBody(node).None?
  {
  }

  lemma {:induction false} PathPlain(path: seq<PathStep>, i: nat, j: nat, span: Span, opensNode: bool)
    requires Descends(path, span, opensNode) && i <= j < |path| && Plain(path[i].node)
    ensures Plain(path[j].node)
    decreases j
  {
    hide Plain, Encloses;
    if i < j {
      PathPlain(path, i, j - 1, span, opensNode);
      HeldAt(path, j - 1, span, opensNode);
      HeldIsChild(path[j], path[j - 1].node);
      PlainChild(path[j - 1].node, path[j].node);
    }
  }

  /** A probe in a list stands within the list's owner, between its braces if it has them, and behind its directives. */
  lemma {:induction false} ListPointInside(owner: Node, index: int)
    requires WellFormed(owner) && ListFieldOf(owner.kind).Some?
    requires index <= |MembersOf(owner, ListFieldOf(owner.kind).value)|
    requires ListPoint(owner, ListFieldOf(owner.kind).value, index).Some?
    ensures var field := ListFieldOf(owner.kind).value;
            var step, members := ListPoint(owner, field, index).value, MembersOf(owner, field);
            && InsertsWithin(step, owner.start, owner.end)
            && (IsBraced(owner.kind) ==> owner.start < step.insertions[0].offset < owner.end)
            && forall k :: 0 <= k < Prologue(members) ==> members[k].end <= step.insertions[0].offset
  {
    hide *;
    var field := ListFieldOf(owner.kind).value;
    MembersLie(owner, field);
    var at := PointIs(owner, field, index);
    var members, offset := MembersOf(owner, field), ListPoint(owner, field, index).value.insertions[0].offset;
    if at < |members| {
      LieIs(members[at], owner);
      AscendingTo(members, at);
    } else if at > 0 {
      LieIs(members[at - 1], owner);
      AscendingTo(members, at - 1);
    }
    OneInsertion(ListPoint(owner, field, index).value, owner.start, owner.end);
  }

  lemma {:induction false} MembersLie(owner: Node, field: FieldName)
    requires WellFormed(owner) && ListFieldOf(owner.kind) == Some(field)
    ensures owner.start <= owner.end && (IsBraced(owner.kind) ==> owner.start + 2 <= owner.end)
    ensures Ascending(MembersOf(owner, field))
    ensures forall i :: 0 <= i < |MembersOf(owner, field)| ==> LiesIn(MembersOf(owner, field)[i], owner)
  {
    WellFormedKeeps(owner);
    hide WellFormed, MembersOf;
  }

  lemma {:induction false} LieIs(member: Node, owner: Node)
    requires LiesIn(member, owner)
    ensures owner.start <= member.start <= member.end <= owner.end
    ensures IsBraced(owner.kind) ==> owner.start < member.start && member.end < owner.end
  {
  }

  lemma {:induction false} OneInsertion(step: Step, start: nat, end: nat)
    requires |step.insertions| == 1 && start <= step.insertions[0].offset <= end
    ensures InsertsWithin(step, start, end)
  {
  }

  lemma {:induction false} PointIs(owner: Node, field: FieldName, index: int) returns (at: nat)
    requires index <= |MembersOf(owner, field)| && ListPoint(owner, field, index).Some?
    ensures var members, step := MembersOf(owner, field), ListPoint(owner, field, index).value;
            && |step.insertions| == 1 && Prologue(members) <= at <= |members|
            && step.insertions[0].offset ==
               (if at < |members| then members[at].start else if at > 0 then members[at - 1].end else owner.end - 1)
            && (at == |members| == 0 ==> IsBraced(owner.kind))
  {
    hide MembersOf, Prologue;
    var members := MembersOf(owner, field);
    var from := if index > Prologue(members) then index else Prologue(members);
    at := from;
  }

  lemma {:induction false} AscendingTo(members: seq<Node>, at: nat)
    requires Ascending(members) && at < |members|
    ensures forall k :: 0 <= k < at ==> members[k].end <= members[at].start
    ensures members[at].start <= members[at].end
  {
  }

  /** Every leading directive is one, and the first statement behind them is not. */
  lemma {:induction false} PrologueCounts(members: seq<Node>)
    ensures forall k :: 0 <= k < Prologue(members) ==> members[k].directive
    ensures Prologue(members) < |members| ==> !members[Prologue(members)].directive
  {
    if members != [] && members[0].directive {
      PrologueCounts(members[1..]);
      assert forall k :: 0 < k < Prologue(members) ==> members[k] == members[1..][k - 1];
    }
  }

  /** The probe stands behind the first character of what holds it, and its insertions end there at the latest. */
  ghost predicate StandsInside(step: Step, fn: Node) {
    InsertsWithin(step, fn.start, fn.end) && fn.start < step.insertions[0].offset
  }

  /** The head of a function's body is always a step, and its probe stands behind the function's first character. */
  lemma {:induction false} BodyHeadInside(fn: Node)
    requires WellFormed(fn) && FunctionBody(fn).Some?
    ensures BodyHead(fn, FunctionBody(fn).value).Some? && StandsInside(BodyHead(fn, FunctionBody(fn).value).value, fn)
  {
    var body := FunctionBody(fn).value;
    WellFormedKeeps(fn);
    assert IsChild(body, fn);
    ChildWellFormed(fn, body);
    var field := ListFieldOf(body.kind);
    if field.Some? {
      assert IsBraced(body.kind) && field.value == BodyField;
      assert ListPoint(body, BodyField, 0).Some?;
      ListPointInside(body, 0);
      InsertsWider(ListPoint(body, BodyField, 0).value, body.start, body.end, fn.start, fn.end);
    }
    hide WellFormed, ListPoint, MembersOf, Plain;
  }

  lemma {:induction false} InsertsWider(step: Step, start: nat, end: nat, outerStart: nat, outerEnd: nat)
    requires InsertsWithin(step, start, end) && outerStart <= start && end <= outerEnd
    ensures InsertsWithin(step, outerStart, outerEnd)
  {
  }

  function LastStep(path: seq<PathStep>): Option<Step>
    requires path != []
  {
    StepOn(path[|path| - 1], if |path| > 1 then Some(path[|path| - 2].node) else None)
  }

  lemma {:induction false} EnclosingStepIs(path: seq<PathStep>)
    requires path != []
    ensures EnclosingStep(path) == if LastStep(path).Some? then LastStep(path) else EnclosingStep(path[..|path| - 1])
  {
    hide StepOn;
  }

  lemma {:induction false} HeadStep(here: PathStep, holder: Option<Node>)
    requires FunctionBody(here.node).Some? && WellFormed(here.node)
    ensures StepOn(here, holder).Some? && StandsInside(StepOn(here, holder).value, here.node)
  {
    BodyHeadInside(here.node);
    hide WellFormed, BodyHead;
  }

  /** A step that is no function's is held by a node that holds steps. */
  lemma {:induction false} HeldStep(here: PathStep, holder: Node)
    requires FunctionBody(here.node).None? && StepOn(here, Some(holder)).Some?
    ensures HoldsSteps(holder.kind)
  {
    hide ListPoint, MembersOf, FunctionBody;
  }

  /** It lies within its holder, when it lies in the holder's list or within the holder itself. */
  lemma {:induction false} HeldStepLies(here: PathStep, holder: Node)
    requires FunctionBody(here.node).None? && WellFormed(holder) && here.node.start <= here.node.end
    requires StepOn(here, Some(holder)).Some? && (holder.kind.Program? || Within(here.node, holder))
    ensures InsertsWithin(StepOn(here, Some(holder)).value, holder.start, holder.end)
  {
    hide WellFormed, ListPoint, MembersOf, FunctionBody;
    if ListFieldOf(holder.kind) == here.field {
      ListPointInside(holder, IndexOf(MembersOf(holder, here.field.value), here.node));
    }
  }

  /** A step taken at a later node of the path lies within an earlier one below the root. */
  lemma {:induction false} LastStepWithin(path: seq<PathStep>, k: nat, span: Span, opensNode: bool)
    requires Descends(path, span, opensNode) && path != [] && WellFormed(path[0].node) && span.start <= span.end
    requires 1 <= k < |path| - 1 && LastStep(path).Some?
    ensures InsertsWithin(LastStep(path).value, path[k].node.start, path[k].node.end)
  {
    hide *;
    var last := |path| - 1;
    PathNests(path, k, last, span, opensNode);
    PathNests(path, k, last - 1, span, opensNode);
    PathNests(path, last - 1, last, span, opensNode);
    PathWellFormed(path, last, span, opensNode);
    PathWellFormed(path, last - 1, span, opensNode);
    WellFormedKeeps(path[last].node);
    LastStepIs(path);
    WithinIs(path[last].node, path[k].node);
    WithinIs(path[last - 1].node, path[k].node);
    if FunctionBody(path[last].node).Some? {
      HeadStep(path[last], Some(path[last - 1].node));
      StandsIs(LastStep(path).value, path[last].node);
      InsertsWider(LastStep(path).value, path[last].node.start, path[last].node.end,
                   path[k].node.start, path[k].node.end);
    } else {
      HeldStepLies(path[last], path[last - 1].node);
      InsertsWider(LastStep(path).value, path[last - 1].node.start, path[last - 1].node.end,
                   path[k].node.start, path[k].node.end);
    }
  }

  lemma {:induction false} WithinIs(a: Node, b: Node)
    requires Within(a, b)
    ensures b.start <= a.start && a.end <= b.end
  {
  }

  lemma {:induction false} StandsIs(step: Step, fn: Node)
    ensures StandsInside(step, fn) <==>
            InsertsWithin(step, fn.start, fn.end) && step.insertions != [] && fn.start < step.insertions[0].offset
  {
  }

  lemma {:induction false} LastStepIs(path: seq<PathStep>)
    requires path != []
    ensures LastStep(path) == StepOn(path[|path| - 1], if |path| > 1 then Some(path[|path| - 2].node) else None)
  {
  }

  /** A step taken behind a node of the path that holds none is none of the node's: the path goes on to no step. */
  lemma {:induction false} PlainHasNoStep(path: seq<PathStep>, k: nat, span: Span, opensNode: bool)
    requires Descends(path, span, opensNode) && k < |path| - 1 && Plain(path[k].node)
    ensures LastStep(path).None?
  {
    hide *;
    var last := |path| - 1;
    PathPlain(path, k, last, span, opensNode);
    PathPlain(path, k, last - 1, span, opensNode);
    PlainIs(path[last].node);
    PlainIs(path[last - 1].node);
    LastStepIs(path);
    if LastStep(path).Some? { HeldStep(path[last], path[last - 1].node); }
  }

  lemma {:induction false} InsideFunction(fn: Node, child: Node)
    requires WellFormed(fn) && FunctionBody(fn).Some? && IsChild(child, fn)
    ensures !HoldsSteps(fn.kind) && (fn.start < child.start || Plain(child))
  {
    WellFormedKeeps(fn);
    hide WellFormed, FunctionBody, Plain;
  }

  lemma {:induction false} Moved(step: Step, inner: Node, fn: Node)
    requires InsertsWithin(step, inner.start, inner.end) && InsertsWithin(step, fn.start, fn.end)
    requires fn.start < inner.start
    ensures StandsInside(step, fn)
  {
  }

  lemma {:induction false} StandsWider(step: Step, inner: Node, fn: Node)
    requires StandsInside(step, inner) && Within(inner, fn)
    ensures StandsInside(step, fn)
  {
  }

  /** A step taken at the path's last node stands inside every function of the path that has a body. */
  lemma {:induction false} LastStepInside(path: seq<PathStep>, k: nat, span: Span, opensNode: bool)
    requires Descends(path, span, opensNode) && path != [] && WellFormed(path[0].node) && span.start <= span.end
    requires 1 <= k < |path| && FunctionBody(path[k].node).Some?
    ensures k == |path| - 1 ==> LastStep(path).Some?
    ensures LastStep(path).Some? ==> StandsInside(LastStep(path).value, path[k].node)
  {
    hide *;
    var last := |path| - 1;
    var fn := path[k].node;
    PathWellFormed(path, k, span, opensNode);
    PathWellFormed(path, last, span, opensNode);
    LastStepIs(path);
    if FunctionBody(path[last].node).Some? {
      HeadStep(path[last], Some(path[last - 1].node));
      PathNests(path, k, last, span, opensNode);
      StandsWider(LastStep(path).value, path[last].node, fn);
    } else if LastStep(path).Some? {
      BehindFunction(path, k, span, opensNode);
      HeldStep(path[last], path[last - 1].node);
      if k + 1 < last {
        LastStepWithin(path, k, span, opensNode);
        LastStepWithin(path, k + 1, span, opensNode);
        if Plain(path[k + 1].node) { PlainHasNoStep(path, k + 1, span, opensNode); }
        Moved(LastStep(path).value, path[k + 1].node, fn);
      }
    }
  }

  /** What follows a function on the path starts behind it, or holds no step. */
  lemma {:induction false} BehindFunction(path: seq<PathStep>, k: nat, span: Span, opensNode: bool)
    requires Descends(path, span, opensNode) && path != [] && WellFormed(path[0].node)
    requires k < |path| - 1 && FunctionBody(path[k].node).Some?
    ensures !HoldsSteps(path[k].node.kind)
    ensures path[k].node.start < path[k + 1].node.start || Plain(path[k + 1].node)
  {
    hide *;
    PathWellFormed(path, k, span, opensNode);
    HeldAt(path, k, span, opensNode);
    HeldIsChild(path[k + 1], path[k].node);
    InsideFunction(path[k].node, path[k + 1].node);
  }

  lemma {:induction false} DescendsPrefix(path: seq<PathStep>, n: nat, span: Span, opensNode: bool)
    requires Descends(path, span, opensNode) && n <= |path|
    ensures Descends(path[..n], span, opensNode)
  {
    hide Follows;
    forall i | 0 <= i < n - 1
      ensures Follows(path[..n][i + 1], path[..n][i].node, span, opensNode)
    {
      assert Follows(path[i + 1], path[i].node, span, opensNode);
    }
  }

  lemma {:induction false} EnclosingStepInside(path: seq<PathStep>, k: nat, span: Span, opensNode: bool)
    requires Descends(path, span, opensNode) && path != [] && WellFormed(path[0].node) && span.start <= span.end
    requires 1 <= k < |path| && FunctionBody(path[k].node).Some?
    ensures EnclosingStep(path).Some? && StandsInside(EnclosingStep(path).value, path[k].node)
  {
    hide *;
    LastStepInside(path, k, span, opensNode);
    EnclosingStepIs(path);
    if LastStep(path).None? {
      DescendsPrefix(path, |path| - 1, span, opensNode);
      EnclosingStepInside(path[..|path| - 1], k, span, opensNode);
    }
  }

  /** A step of a program's path lies within the program. */
  lemma {:induction false} EnclosingStepLies(path: seq<PathStep>, span: Span, opensNode: bool)
    requires Descends(path, span, opensNode) && path != [] && ProgramTree(path[0].node) && span.start <= span.end
    requires EnclosingStep(path).Some?
    ensures InsertsWithin(EnclosingStep(path).value, path[0].node.start, path[0].node.end)
  {
    hide *;
    EnclosingStepIs(path);
    if LastStep(path).Some? {
      LastStepLies(path, span, opensNode);
    } else {
      NoEnclosingStep();
      DescendsPrefix(path, |path| - 1, span, opensNode);
      EnclosingStepLies(path[..|path| - 1], span, opensNode);
    }
  }

  lemma {:induction false} LastStepLies(path: seq<PathStep>, span: Span, opensNode: bool)
    requires Descends(path, span, opensNode) && path != [] && ProgramTree(path[0].node) && span.start <= span.end
    requires LastStep(path).Some?
    ensures InsertsWithin(LastStep(path).value, path[0].node.start, path[0].node.end)
  {
    hide *;
    var root, last := path[0].node, |path| - 1;
    TreeIs(root);
    LastStepIs(path);
    RootStep(path[0]);
    FirstBelow(path, span, opensNode);
    PathWellFormed(path, last, span, opensNode);
    WellFormedKeeps(path[last].node);
    if last > 1 {
      if Plain(path[1].node) { PlainHasNoStep(path, 1, span, opensNode); }
      LastStepWithin(path, 1, span, opensNode);
      WithinIs(path[1].node, root);
      InsertsWider(LastStep(path).value, path[1].node.start, path[1].node.end, root.start, root.end);
    } else if FunctionBody(path[1].node).Some? {
      HeadStep(path[1], Some(root));
      if Plain(path[1].node) { PlainIs(path[1].node); }
      WithinIs(path[1].node, root);
      StandsIs(LastStep(path).value, path[1].node);
      InsertsWider(LastStep(path).value, path[1].node.start, path[1].node.end, root.start, root.end);
    } else {
      HeldStepLies(path[1], root);
    }
  }

  lemma {:induction false} FirstBelow(path: seq<PathStep>, span: Span, opensNode: bool)
    requires Descends(path, span, opensNode) && path != [] && ProgramTree(path[0].node)
    ensures |path| > 1 ==> Within(path[1].node, path[0].node) || Plain(path[1].node)
  {
    hide *;
    TreeIs(path[0].node);
    if |path| > 1 {
      HeldAt(path, 0, span, opensNode);
      HeldIsChild(path[1], path[0].node);
      ChildWellFormed(path[0].node, path[1].node);
      ProgramChild(path[1].node, path[0].node);
    }
  }

  lemma {:induction false} ProgramChild(child: Node, root: Node)
    requires ChildLies(child, root) && root.kind.Program?
    ensures Within(child, root) || Plain(child)
  {
  }

  lemma {:induction false} TreeIs(root: Node)
    requires ProgramTree(root)
    ensures root.kind.Program? && WellFormed(root) && FunctionBody(root).None?
  {
    WellFormedKeeps(root);
    hide WellFormed, FunctionBody, Plain;
  }

  /** The root alone is no step unless it is a function. */
  lemma {:induction false} RootStep(here: PathStep)
    ensures FunctionBody(here.node).None? ==> StepOn(here, None).None?
  {
  }

  lemma {:induction false} NoEnclosingStep()
    ensures EnclosingStep([]).None?
  {
  }

  /** The point of a changed list lies within the list's owner, the path's last node. */
  lemma {:induction false} ChangedListPointIs(path: seq<PathStep>, span: Span)
    requires path != [] && WellFormed(path[|path| - 1].node)
    requires ChangedListPoint(path, span).Some? && ChangedListPoint(path, span).value.Found?
    ensures var owner := path[|path| - 1].node;
            && HoldsSteps(owner.kind)
            && InsertsWithin(ChangedListPoint(path, span).value.step, owner.start, owner.end)
  {
    hide WellFormed, ListPoint, MembersOf, FirstEndingAfter;
    var owner := path[|path| - 1].node;
    var field := ListFieldOf(owner.kind).value;
    ListPointInside(owner, FirstEndingAfter(MembersOf(owner, field), span.start));
    hide WellFormed, ListPoint;
  }

  lemma {:induction false} ChangedListInside(path: seq<PathStep>, k: nat, span: Span, opensNode: bool)
    requires Descends(path, span, opensNode) && path != [] && WellFormed(path[0].node) && span.start <= span.end
    requires 1 <= k < |path| && FunctionBody(path[k].node).Some?
    requires ChangedListPoint(path, span).Some? && ChangedListPoint(path, span).value.Found?
    ensures StandsInside(ChangedListPoint(path, span).value.step, path[k].node)
  {
    hide *;
    var last, step := |path| - 1, ChangedListPoint(path, span).value.step;
    var owner, fn := path[last].node, path[k].node;
    PathWellFormed(path, last, span, opensNode);
    PathWellFormed(path, k, span, opensNode);
    ChangedListPointIs(path, span);
    if k == last {
      NoFunctionHoldsSteps(fn);
    } else {
      BehindFunction(path, k, span, opensNode);
      if Plain(path[k + 1].node) {
        PathPlain(path, k + 1, last, span, opensNode);
        PlainIs(owner);
      }
      PathNests(path, k + 1, last, span, opensNode);
      PathNests(path, k, last, span, opensNode);
      WithinIs(owner, path[k + 1].node);
      WithinIs(owner, fn);
      InsertsWider(step, owner.start, owner.end, path[k + 1].node.start, path[k + 1].node.end);
      InsertsWider(step, owner.start, owner.end, fn.start, fn.end);
      Moved(step, path[k + 1].node, fn);
    }
  }

  lemma {:induction false} NoFunctionHoldsSteps(fn: Node)
    requires WellFormed(fn) && FunctionBody(fn).Some?
    ensures !HoldsSteps(fn.kind)
  {
    WellFormedKeeps(fn);
    hide WellFormed, FunctionBody, Plain;
  }

  lemma {:induction false} ChangedListLies(path: seq<PathStep>, span: Span, opensNode: bool)
    requires Descends(path, span, opensNode) && path != [] && ProgramTree(path[0].node) && span.start <= span.end
    requires ChangedListPoint(path, span).Some? && ChangedListPoint(path, span).value.Found?
    ensures InsertsWithin(ChangedListPoint(path, span).value.step, path[0].node.start, path[0].node.end)
  {
    hide *;
    var root, last, step := path[0].node, |path| - 1, ChangedListPoint(path, span).value.step;
    TreeIs(root);
    PathWellFormed(path, last, span, opensNode);
    ChangedListPointIs(path, span);
    FirstBelow(path, span, opensNode);
    if last > 0 {
      if Plain(path[1].node) {
        PathPlain(path, 1, last, span, opensNode);
        PlainIs(path[last].node);
      }
      PathNests(path, 1, last, span, opensNode);
      WithinIs(path[last].node, path[1].node);
      WithinIs(path[1].node, root);
      InsertsWider(step, path[last].node.start, path[last].node.end, root.start, root.end);
    }
  }

  /**
   * A step's insertions stand in text order within the program, and inside every function with a body that holds the
   * change: behind the first character of each such function of the tree that encloses the span, and before its end.
   */
  lemma {:induction false} ProbeStandsInside(root: Node, span: Span, opensNode: bool)
    requires ProgramTree(root) && span.start <= span.end && StepAt(root, span, opensNode).Found?
    ensures var step := StepAt(root, span, opensNode).step;
            && InsertsWithin(step, root.start, root.end)
            && forall fn :: NestedIn(fn, root) && Encloses(fn, span, opensNode) && FunctionBody(fn).Some? ==>
                 StandsInside(step, fn)
  {
    hide *;
    var here := PathStep(root, None);
    var path := PathFrom(here, span, opensNode);
    var step := StepAt(root, span, opensNode).step;
    PathNext(here, span, opensNode);
    PathDescends(here, span, opensNode);
    TreeIs(root);
    FoundBy(root, span, opensNode);
    if ChangedListPoint(path, span).Some? {
      ChangedListLies(path, span, opensNode);
    } else {
      EnclosingStepLies(path, span, opensNode);
    }
    forall fn | NestedIn(fn, root) && Encloses(fn, span, opensNode) && FunctionBody(fn).Some?
      ensures StandsInside(step, fn)
    {
      PathHoldsAll(here, span, opensNode, fn);
      var k :| 0 <= k < |path| && path[k].node == fn;
      if ChangedListPoint(path, span).Some? {
        ChangedListInside(path, k, span, opensNode);
      } else {
        EnclosingStepInside(path, k, span, opensNode);
      }
    }
  }

  /** A step found is the changed list's point, or else the enclosing step. */
  lemma {:induction false} FoundBy(root: Node, span: Span, opensNode: bool)
    requires StepAt(root, span, opensNode).Found?
    ensures var path, step := PathFrom(PathStep(root, None), span, opensNode), StepAt(root, span, opensNode);
            && path != []
            && var inList := ChangedListPoint(path, span);
               if inList.Some? then inList.value == step else EnclosingStep(path) == Some(step.step)
  {
    hide PathFrom, ChangedListPoint, EnclosingStep;
  }

  /** The insertions stand in text order from `from` on, within a text of this length. */
  ghost predicate InOrder(insertions: seq<Insertion>, from: nat, length: nat) {
    if insertions == [] then from <= length
    else from <= insertions[0].offset <= length && InOrder(insertions[1..], insertions[0].offset, length)
  }

  lemma {:induction false} WithinInOrder(insertions: seq<Insertion>, from: nat, length: nat)
    requires from <= length
    requires forall i :: 0 <= i < |insertions| ==> from <= insertions[i].offset <= length
    requires forall i, j :: 0 <= i < j < |insertions| ==> insertions[i].offset <= insertions[j].offset
    ensures InOrder(insertions, from, length)
  {
    if insertions != [] {
      WithinInOrder(insertions[1..], insertions[0].offset, length);
    }
  }

  /** The text from `from` on with the insertions written in. */
  ghost function Written(text: string, insertions: seq<Insertion>, from: nat): string
    requires InOrder(insertions, from, |text|)
  {
    if insertions == [] then text[from..]
    else
      text[from..insertions[0].offset] + insertions[0].text
      + Written(text, insertions[1..], insertions[0].offset)
  }

  method WithProbe(text: string, step: Step) returns (probed: string)
    requires InOrder(step.insertions, 0, |text|)
    ensures probed == Written(text, step.insertions, 0)
  {
    hide Written, InOrder;
    probed := "";
    var from: nat := 0;
    assert step.insertions[0..] == step.insertions;
    for i := 0 to |step.insertions|
      invariant InOrder(step.insertions[i..], from, |text|)
      invariant probed + Written(text, step.insertions[i..], from) == Written(text, step.insertions, 0)
    {
      WrittenNext(text, step.insertions, i, from, probed);
      probed := probed + text[from..step.insertions[i].offset] + step.insertions[i].text;
      from := step.insertions[i].offset;
    }
    WrittenLast(text, step.insertions, from);
    probed := probed + text[from..];
  }

  lemma {:induction false} WrittenNext(text: string, insertions: seq<Insertion>, i: nat, from: nat, probed: string)
    requires i < |insertions| && InOrder(insertions[i..], from, |text|)
    ensures from <= insertions[i].offset <= |text| && InOrder(insertions[i + 1..], insertions[i].offset, |text|)
    ensures probed + Written(text, insertions[i..], from) ==
            (probed + text[from..insertions[i].offset] + insertions[i].text)
            + Written(text, insertions[i + 1..], insertions[i].offset)
  {
    assert insertions[i..][1..] == insertions[i + 1..];
    var rest := Written(text, insertions[i + 1..], insertions[i].offset);
    assert Written(text, insertions[i..], from) == text[from..insertions[i].offset] + insertions[i].text + rest;
    hide Written, InOrder;
  }

  lemma {:induction false} WrittenLast(text: string, insertions: seq<Insertion>, from: nat)
    requires InOrder(insertions[|insertions|..], from, |text|)
    ensures from <= |text| && Written(text, insertions[|insertions|..], from) == text[from..]
  {
  }

  lemma {:induction false} InOrderEnds(insertions: seq<Insertion>, from: nat, length: nat)
    requires InOrder(insertions, from, length)
    ensures from <= length
  {
    if insertions != [] { InOrderEnds(insertions[1..], insertions[0].offset, length); }
  }

  /** What is left of a written text once the insertions are taken out where they stand. */
  ghost function Erased(written: string, insertions: seq<Insertion>, from: nat): string {
    if insertions == [] then written
    else
      var before := insertions[0].offset - from;
      var after := before + |insertions[0].text|;
      if 0 <= before && after <= |written|
      then written[..before] + Erased(written[after..], insertions[1..], insertions[0].offset) else written
  }

  /** A probe is only ever text inserted: taking it out again gives back the text it was written into. */
  lemma {:induction false} ErasingGivesBack(text: string, insertions: seq<Insertion>, from: nat)
    requires InOrder(insertions, from, |text|)
    ensures from <= |text| && Erased(Written(text, insertions, from), insertions, from) == text[from..]
  {
    InOrderEnds(insertions, from, |text|);
    if insertions != [] {
      var first := insertions[0];
      InOrderEnds(insertions[1..], first.offset, |text|);
      ErasingGivesBack(text, insertions[1..], first.offset);
      var rest := Written(text, insertions[1..], first.offset);
      var written := text[from..first.offset] + first.text + rest;
      var after := first.offset - from + |first.text|;
      assert written[..first.offset - from] == text[from..first.offset];
      assert written[after..] == rest;
      assert text[from..] == text[from..first.offset] + text[first.offset..];
    }
  }

  /** No insertion of a step holds a line break, so a probe moves no line. */
  lemma {:induction false} ProbeBreaksNoLine(root: Node, span: Span, opensNode: bool)
    requires StepAt(root, span, opensNode).Found?
    ensures forall i :: i in StepAt(root, span, opensNode).step.insertions ==> '\n' !in i.text
  {
    var path := PathFrom(PathStep(root, None), span, opensNode);
    ProbeTexts();
    if ChangedListPoint(path, span).None? {
      EnclosingBreaksNoLine(path);
    }
    hide PathFrom, EnclosingStep, MembersOf, FirstEndingAfter;
  }

  ghost predicate BreaksNoLine(step: Option<Step>) {
    step.Some? ==> forall i :: i in step.value.insertions ==> '\n' !in i.text
  }

  lemma {:induction false} ProbeTexts()
    ensures '\n' !in PROBE_STATEMENT && '\n' !in CLOSING_PROBE_STATEMENT && '\n' !in BLOCK_OPENING
    ensures '\n' !in BLOCK_CLOSING && '\n' !in WRAP_OPENING && '\n' !in WRAP_CLOSING
  {
  }

  lemma {:induction false} StepBreaksNoLine(here: PathStep, holder: Option<Node>)
    ensures BreaksNoLine(StepOn(here, holder))
  {
    ProbeTexts();
    hide MembersOf, FunctionBody, Prologue, IndexOf;
  }

  lemma {:induction false} EnclosingBreaksNoLine(path: seq<PathStep>)
    ensures BreaksNoLine(EnclosingStep(path))
  {
    if path != [] {
      var last := |path| - 1;
      StepBreaksNoLine(path[last], if last > 0 then Some(path[last - 1].node) else None);
      EnclosingBreaksNoLine(path[..last]);
      hide StepOn, BreaksNoLine;
    }
  }
}
