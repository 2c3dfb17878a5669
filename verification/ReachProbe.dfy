/** Applying a mutation to a file's text in memory and placing its reach probe. */
module ReachProbes {
  import opened Options
  import opened ProbeSteps
  import A = AnchorMatches

  /** What a mutation changed: `removed` of the unmutated text, `written` of the mutated one, both from one offset. */
  datatype Change = Change(removed: Span, written: Span)

  datatype Position = Position(line: nat, column: nat)

  datatype NoProbeSite =
    | NoPosition(changeStart: Position, nodeKind: Kind, role: Role)
    | Unparsed(at: Option<Position>, nesting: Option<nat>)

  datatype ProbedMutation =
    | Mutated(text: string, site: Position, nodeKind: Kind)
    | AnchorCount(count: nat)
    | NoSite(reason: NoProbeSite)

  /** What the parser makes of a text: its tree, or where it failed and how deep it nests. */
  datatype Parse = Parsed(root: Node) | Failed(offset: Option<nat>, nesting: Option<nat>)

  /** What is expected of the parser: well-formed programs that span no more than the text, and errors inside it. */
  ghost predicate Parses(parse: string -> Parse) {
    forall text :: match parse(text)
      case Parsed(root) => ProgramTree(root) && root.end <= |text|
      case Failed(offset, _) => offset.Some? ==> offset.value <= |text|
  }

  /** The change splits both texts alike: one prefix, the longest they share, and of what remains the longest suffix. */
  ghost predicate Splits(replaced: string, written: string, offset: nat, change: Change) {
    && change.removed.start == change.written.start >= offset
    && var p, r, w := change.written.start - offset, change.removed.end - offset, change.written.end - offset;
       && p <= r <= |replaced| && p <= w <= |written|
       && replaced[..p] == written[..p] && replaced[r..] == written[w..]
       && (forall q :: 0 <= q <= |replaced| && q <= |written| && replaced[..q] == written[..q] ==> q <= p)
       && forall s, t :: p <= s <= |replaced| && p <= t <= |written| && replaced[s..] == written[t..] ==> r <= s && w <= t
  }

  /** Trims the longest prefix the replaced and the written text share, and then the longest suffix. */
  method ChangeOf(replaced: string, written: string, offset: nat) returns (change: Change)
    ensures Splits(replaced, written, offset, change)
  {
    hide Splits;
    var shortest := if |replaced| < |written| then |replaced| else |written|;
    var prefix := 0;
    while prefix < shortest && replaced[prefix] == written[prefix]
      invariant 0 <= prefix <= shortest
      invariant replaced[..prefix] == written[..prefix]
    {
      assert replaced[..prefix + 1] == replaced[..prefix] + [replaced[prefix]];
      assert written[..prefix + 1] == written[..prefix] + [written[prefix]];
      prefix := prefix + 1;
    }
    var suffix := 0;
    while suffix < shortest - prefix && replaced[|replaced| - 1 - suffix] == written[|written| - 1 - suffix]
      invariant 0 <= suffix <= shortest - prefix
      invariant replaced[|replaced| - suffix..] == written[|written| - suffix..]
    {
      SuffixNext(replaced, suffix);
      SuffixNext(written, suffix);
      suffix := suffix + 1;
    }
    var start := offset + prefix;
    change := Change(Span(start, offset + |replaced| - suffix), Span(start, offset + |written| - suffix));
    SplitsAt(replaced, written, offset, prefix, suffix, change);
  }

  lemma SplitsAt(replaced: string, written: string, offset: nat, p: nat, n: nat, change: Change)
    requires p + n <= |replaced| && p + n <= |written|
    requires p == |replaced| || p == |written| || replaced[p] != written[p]
    requires p + n == |replaced| || p + n == |written|
             || replaced[|replaced| - 1 - n] != written[|written| - 1 - n]
    requires replaced[..p] == written[..p] && replaced[|replaced| - n..] == written[|written| - n..]
    requires change == Change(Span(offset + p, offset + |replaced| - n), Span(offset + p, offset + |written| - n))
    ensures Splits(replaced, written, offset, change)
  {
    LongestPrefix(replaced, written, p);
    LongestSuffix(replaced, written, p, n);
  }

  lemma SuffixNext(text: string, suffix: nat)
    requires suffix < |text|
    ensures text[|text| - suffix - 1..] == [text[|text| - 1 - suffix]] + text[|text| - suffix..]
  {
  }

  lemma LongestPrefix(a: string, b: string, p: nat)
    requires p <= |a| && p <= |b| && (p == |a| || p == |b| || a[p] != b[p])
    ensures forall q :: 0 <= q <= |a| && q <= |b| && a[..q] == b[..q] ==> q <= p
  {
    forall q | 0 <= q <= |a| && q <= |b| && a[..q] == b[..q]
      ensures q <= p
    {
      assert forall k :: 0 <= k < q ==> a[k] == a[..q][k] && b[k] == b[..q][k];
    }
  }

  lemma LongestSuffix(a: string, b: string, p: nat, n: nat)
    requires p + n <= |a| && p + n <= |b|
    requires p + n == |a| || p + n == |b| || a[|a| - 1 - n] != b[|b| - 1 - n]
    ensures forall s, t :: p <= s <= |a| && p <= t <= |b| && a[s..] == b[t..] ==> |a| - n <= s && |b| - n <= t
  {
    forall s, t | p <= s <= |a| && p <= t <= |b| && a[s..] == b[t..]
      ensures |a| - n <= s && |b| - n <= t
    {
      assert |a| - s == |b| - t by {
        assert |a[s..]| == |b[t..]|;
      }
      assert forall k :: s <= k < |a| ==> a[k] == a[s..][k - s];
      assert forall k :: t <= k < |b| ==> b[k] == b[t..][k - t];
    }
  }

  /** No two changes split the texts so, whatever finds them. */
  lemma OneSplit(replaced: string, written: string, offset: nat, a: Change, b: Change)
    requires Splits(replaced, written, offset, a) && Splits(replaced, written, offset, b)
    ensures a == b
  {
  }

  /** Where the probe stands, as an offset of the unmutated text. */
  function SiteOffset(step: Step, change: Change): int
    requires step.insertions != []
  {
    var offset := step.insertions[0].offset;
    if offset <= change.written.start then offset
    else if offset < change.written.end then change.written.start
    else offset - (change.written.end - change.removed.end)
  }

  /**
   * The site reads in the unmutated text as the probe's place does in the mutated one: what stands before a probe that
   * stands before the change, or from a probe on that stands behind it, is the same in both.
   */
  lemma SiteReadsAlike(text: string, replaced: A.Replacement, change: Change, step: Step)
    requires replaced.Applied? && step.insertions != [] && step.insertions[0].offset <= |replaced.text|
    requires replaced.match_.start <= replaced.match_.end <= |text|
    requires replaced.match_.start <= replaced.replacementEnd <= |replaced.text|
    requires replaced.text[..replaced.match_.start] == text[..replaced.match_.start]
    requires replaced.text[replaced.replacementEnd..] == text[replaced.match_.end..]
    requires Splits(text[replaced.match_.start..replaced.match_.end],
                    replaced.text[replaced.match_.start..replaced.replacementEnd], replaced.match_.start, change)
    ensures var offset, site := step.insertions[0].offset, SiteOffset(step, change);
            && 0 <= site <= |text|
            && (offset <= change.written.start ==> text[..site] == replaced.text[..offset])
            && (offset >= change.written.end && offset > change.written.start ==>
                  text[site..] == replaced.text[offset..])
            && (change.written.start < offset < change.written.end ==> site == change.written.start)
  {
    ApartFromChange(text, replaced, change);
    hide Splits;
    SameAround(text, replaced.text, change.written.start, change.removed.end, change.written.end,
               step.insertions[0].offset);
  }

  /** Outside the change both texts are the same. */
  lemma ApartFromChange(text: string, replaced: A.Replacement, change: Change)
    requires replaced.Applied?
    requires replaced.match_.start <= replaced.match_.end <= |text|
    requires replaced.match_.start <= replaced.replacementEnd <= |replaced.text|
    requires replaced.text[..replaced.match_.start] == text[..replaced.match_.start]
    requires replaced.text[replaced.replacementEnd..] == text[replaced.match_.end..]
    requires Splits(text[replaced.match_.start..replaced.match_.end],
                    replaced.text[replaced.match_.start..replaced.replacementEnd], replaced.match_.start, change)
    ensures change.removed.start == change.written.start <= change.removed.end <= |text|
    ensures change.written.start <= change.written.end <= |replaced.text|
    ensures text[..change.written.start] == replaced.text[..change.written.start]
    ensures text[change.removed.end..] == replaced.text[change.written.end..]
  {
    var start, mutated := replaced.match_.start, replaced.text;
    var old_, new_ := text[start..replaced.match_.end], mutated[start..replaced.replacementEnd];
    var p, r, w := change.written.start - start, change.removed.end - start, change.written.end - start;
    assert p <= r <= |old_| && p <= w <= |new_| && old_[..p] == new_[..p] && old_[r..] == new_[w..];
    hide Splits;
    assert text[..start + p] == text[..start] + old_[..p];
    assert mutated[..start + p] == mutated[..start] + new_[..p];
    assert text[start + r..] == old_[r..] + text[replaced.match_.end..];
    assert mutated[start + w..] == new_[w..] + mutated[replaced.replacementEnd..];
  }

  lemma SameAround(text: string, mutated: string, p: nat, r: nat, w: nat, offset: nat)
    requires p <= r <= |text| && p <= w <= |mutated| && offset <= |mutated|
    requires text[..p] == mutated[..p] && text[r..] == mutated[w..]
    ensures offset <= p ==> offset <= |text| && text[..offset] == mutated[..offset]
    ensures offset >= w ==> 0 <= offset - (w - r) <= |text| && text[offset - (w - r)..] == mutated[offset..]
  {
    assert |text[r..]| == |mutated[w..]|;
    if offset <= p {
      assert text[..offset] == text[..p][..offset] && mutated[..offset] == mutated[..p][..offset];
    }
    if offset >= w {
      var k := offset - w;
      assert mutated[offset..] == mutated[w..][k..] && text[r + k..] == text[r..][k..];
    }
  }

  function CountBreaks(text: string): nat {
    if text == "" then 0 else CountBreaks(text[..|text| - 1]) + if text[|text| - 1] == '\n' then 1 else 0
  }

  /** One past the last line break. */
  function LineStart(text: string): (start: nat)
    ensures start <= |text| && (start > 0 ==> text[start - 1] == '\n')
    ensures forall i :: start <= i < |text| ==> text[i] != '\n'
  {
    if text == "" then 0 else if text[|text| - 1] == '\n' then |text| else LineStart(text[..|text| - 1])
  }

  function PositionOf(text: string, offset: nat): Position
    requires offset <= |text|
  {
    Position(CountBreaks(text[..offset]) + 1, offset - LineStart(text[..offset]) + 1)
  }

  lemma {:induction false} BreaksGrow(text: string, a: nat, b: nat)
    requires a <= b <= |text|
    ensures CountBreaks(text[..a]) <= CountBreaks(text[..b])
    ensures CountBreaks(text[..a]) == CountBreaks(text[..b]) ==> LineStart(text[..a]) == LineStart(text[..b])
    decreases b
  {
    if a < b {
      BreaksGrow(text, a, b - 1);
      assert text[..b][..b - 1] == text[..b - 1];
    }
  }

  /** A position names one offset. */
  lemma PositionsTellApart(text: string, a: nat, b: nat)
    requires a < b <= |text|
    ensures PositionOf(text, a) != PositionOf(text, b)
  {
    BreaksGrow(text, a, b);
  }

  /** What was written, from the start of the step that held the removed text on if that step starts before it. */
  function HoldingSpan(change: Change, held: Option<Step>): Span {
    Span(if held.Some? && held.value.start < change.written.start then held.value.start else change.written.start,
         change.written.end)
  }

  /** The removed text began a step entered at its first character. */
  predicate OpensNode(change: Change, held: Option<Step>) {
    held.Some? && !held.value.inList && held.value.start == change.written.start
  }

  function StepOfChange(root: Node, change: Change, held: Option<Step>): StepChoice {
    StepAt(root, HoldingSpan(change, held), OpensNode(change, held))
  }

  /** Removed text has no extent in the mutated text, so the step that held it is found in the unmutated text. */
  function RemovedStep(parse: string -> Parse, text: string, change: Change): Option<Step> {
    if change.removed.start == change.removed.end then None
    else
      match parse(text)
      case Failed(_, _) => None
      case Parsed(root) =>
        var choice := StepAt(root, change.removed, false);
        if choice.Found? then Some(choice.step) else None
  }

  /** The change a mutation made, the step that held what it removed, and the step its probe stands at. */
  datatype Placing = Placing(change: Change, held: Option<Step>, step: Step)

  /** The function encloses what was written and the start of the step that held the removed text. */
  ghost predicate Holds(fn: Node, change: Change, held: Option<Step>) {
    Encloses(fn, HoldingSpan(change, held), OpensNode(change, held))
  }

  /** The step's insertions stand inside every function with a body that holds the change. */
  ghost predicate InsideHolders(root: Node, placing: Placing) {
    forall fn :: NestedIn(fn, root) && FunctionBody(fn).Some? && Holds(fn, placing.change, placing.held) ==>
      StandsInside(placing.step, fn)
  }

  /** The step's probe, written into the mutated text, gives the probed text and comes out of it again. */
  ghost predicate Probes(mutated: string, probed: string, step: Step) {
    && InOrder(step.insertions, 0, |mutated|)
    && probed == Written(mutated, step.insertions, 0) && Erased(probed, step.insertions, 0) == mutated
  }

  /** The place reported is the probe's own offset, read in the text as it was before the mutation. */
  ghost predicate Reports(text: string, site: Position, nodeKind: Kind, placing: Placing) {
    && placing.step.insertions != []
    && 0 <= SiteOffset(placing.step, placing.change) <= |text|
    && site == PositionOf(text, SiteOffset(placing.step, placing.change))
    && nodeKind == placing.step.nodeKind
  }

  /**
   * No probe stands for this change: no step of the mutated text holds it, or the parser rejects the text with the
   * probe of the step that does. The place reported is where the change starts.
   */
  ghost predicate Placeless(parse: string -> Parse, text: string, mutated: string, root: Node, change: Change,
                            reason: NoProbeSite)
    requires change.written.start <= |text|
  {
    match StepOfChange(root, change, RemovedStep(parse, text, change))
    case NotFound(kind, role) => reason == NoPosition(PositionOf(text, change.written.start), kind, role)
    case Found(step) =>
      && reason == NoPosition(PositionOf(text, change.written.start), step.nodeKind, step.role)
      && exists probed: string :: Probes(mutated, probed, step) && parse(probed).Failed?
  }

  ghost function ReplacedText(text: string, replaced: A.Replacement): string
    requires replaced.Applied? && replaced.match_.start <= replaced.match_.end <= |text|
  {
    text[replaced.match_.start..replaced.match_.end]
  }

  ghost function WrittenText(replaced: A.Replacement): string
    requires replaced.Applied? && replaced.match_.start <= replaced.replacementEnd <= |replaced.text|
  {
    replaced.text[replaced.match_.start..replaced.replacementEnd]
  }

  /**
   * Applies a mutation to a text and places a reach probe. A text it gives parses, holds the mutated text whole once the
   * probe is taken out again, and is probed inside every function that holds the change; one that gives no text has an
   * anchor that does not occur once, or no site.
   */
  method MutateWithProbe(parse: string -> Parse, text: string, old_: string, replacement: string)
      returns (probed: ProbedMutation, ghost change: Change)
    requires Parses(parse)
    ensures var replaced := A.ReplaceAnchor(text, old_, replacement);
            && (replaced.NotApplied? <==> probed.AnchorCount?)
            && (replaced.NotApplied? ==> probed.count == replaced.count)
    ensures probed.Mutated? ==> parse(probed.text).Parsed?
    ensures var replaced := A.ReplaceAnchor(text, old_, replacement);
            replaced.Applied? ==>
              match parse(replaced.text)
              case Failed(at, nesting) =>
                probed == NoSite(Unparsed(if at.Some? then Some(PositionOf(replaced.text, at.value)) else None, nesting))
              case Parsed(root) =>
                && Splits(ReplacedText(text, replaced), WrittenText(replaced), replaced.match_.start, change)
                && change.written.start <= |text|
                && if probed.Mutated? then
                     var held := RemovedStep(parse, text, change);
                     && StepOfChange(root, change, held).Found?
                     && var placing := Placing(change, held, StepOfChange(root, change, held).step);
                        && Probes(replaced.text, probed.text, placing.step)
                        && InsideHolders(root, placing)
                        && Reports(text, probed.site, probed.nodeKind, placing)
                   else probed.NoSite? && Placeless(parse, text, replaced.text, root, change, probed.reason)
  {
    hide StepOfChange, RemovedStep, ProgramTree, NestedIn, Written, Erased, InOrder, Splits, PositionOf, InsideHolders;
    change := Change(Span(0, 0), Span(0, 0));
    var replaced := A.ReplaceAnchor(text, old_, replacement);
    if replaced.NotApplied? { return AnchorCount(replaced.count), change; }
    var mutated, start := replaced.text, replaced.match_.start;
    ParsesAt(parse, mutated);
    match parse(mutated) {
      case Failed(offset, nesting) =>
        var at := if offset.Some? then Some(PositionOf(mutated, offset.value)) else None;
        return NoSite(Unparsed(at, nesting)), change;
      case Parsed(root) =>
        var changed := ChangeOf(text[start..replaced.match_.end], mutated[start..replaced.replacementEnd], start);
        var held := RemovedStep(parse, text, changed);
        var found := StepOfChange(root, changed, held);
        SplitsWithin(text, replaced, changed);
        var changeStart := PositionOf(text, changed.written.start);
        if found.NotFound? { return NoSite(NoPosition(changeStart, found.nodeKind, found.role)), changed; }
        var step := found.step;
        FoundStands(root, changed, held, |mutated|);
        var written := WithProbe(mutated, step);
        ErasingGivesBack(mutated, step.insertions, 0);
        assert mutated[0..] == mutated;
        assert Probes(mutated, written, step);
        if parse(written).Failed? { return NoSite(NoPosition(changeStart, step.nodeKind, step.role)), changed; }
        SiteReadsAlike(text, replaced, changed, step);
        return Mutated(written, PositionOf(text, SiteOffset(step, changed)), step.nodeKind), changed;
    }
  }

  lemma ParsesAt(parse: string -> Parse, text: string)
    requires Parses(parse)
    ensures match parse(text)
            case Parsed(root) => ProgramTree(root) && root.end <= |text|
            case Failed(offset, _) => offset.Some? ==> offset.value <= |text|
  {
  }

  lemma SplitsWithin(text: string, replaced: A.Replacement, change: Change)
    requires replaced.Applied? && replaced.match_.start <= replaced.match_.end <= |text|
    requires replaced.match_.start <= replaced.replacementEnd <= |replaced.text|
    requires Splits(ReplacedText(text, replaced), WrittenText(replaced), replaced.match_.start, change)
    ensures change.written.start <= |text| && change.written.start <= change.written.end
  {
  }

  /**
   * A step found for a change has its insertions in order within the text, and inside each function that holds the
   * change.
   */
  lemma FoundStands(root: Node, change: Change, held: Option<Step>, length: nat)
    requires ProgramTree(root) && root.end <= length && StepOfChange(root, change, held).Found?
    requires change.written.start <= change.written.end
    ensures var step := StepOfChange(root, change, held).step;
            && step.insertions != [] && InOrder(step.insertions, 0, length)
            && step.insertions[0].offset <= length
            && InsideHolders(root, Placing(change, held, step))
  {
    var step := StepOfChange(root, change, held).step;
    ProbeStandsInside(root, HoldingSpan(change, held), OpensNode(change, held));
    hide StepAt, ProgramTree, NestedIn, FunctionBody, StandsInside, Encloses;
    WithinInOrder(step.insertions, 0, length);
  }
}
