/** Finding a mutation's anchor in a file's text, a line break of either ending matching a line break of the anchor. */
module AnchorMatches {
  import opened Options

  datatype LineEnding = Lf | Crlf

  datatype Match = Match(start: nat, end: nat, lineEnding: LineEnding)

  datatype Location = Found(match_: Match) | NotFound(count: nat)

  datatype Replacement = Applied(text: string, match_: Match, replacementEnd: nat) | NotApplied(count: nat)

  function ToLf(value: string): string {
    if value == "" then ""
    else if |value| > 1 && value[0] == '\r' && value[1] == '\n' then "\n" + ToLf(value[2..])
    else [value[0]] + ToLf(value[1..])
  }

  function WithBreaks(lf: string): string {
    if lf == "" then "" else (if lf[0] == '\n' then "\r\n" else [lf[0]]) + WithBreaks(lf[1..])
  }

  function WithLineEnding(value: string, ending: LineEnding): string {
    if ending.Lf? then ToLf(value) else WithBreaks(ToLf(value))
  }

  /** Where the pattern, its line breaks written LF, ends when it is matched at `i`. */
  function MatchAt(text: string, i: nat, pattern: string): (end: Option<nat>)
    ensures end.Some? ==> i <= end.value && (i <= |text| ==> end.value <= |text|)
    ensures end.Some? && pattern != "" ==> i < end.value
    decreases |pattern|
  {
    if pattern == "" then Some(i)
    else if i >= |text| then None
    else if pattern[0] == '\n' && text[i] == '\r' && i + 1 < |text| && text[i + 1] == '\n'
    then MatchAt(text, i + 2, pattern[1..])
    else if text[i] == pattern[0] then MatchAt(text, i + 1, pattern[1..])
    else None
  }

  /** The first match from `from` on: where it starts and ends. */
  function NextMatch(text: string, from: nat, pattern: string): (next: Option<(nat, nat)>)
    requires from <= |text|
    ensures next.Some? ==>
              from <= next.value.0 <= |text| && MatchAt(text, next.value.0, pattern) == Some(next.value.1)
    ensures forall i :: from <= i <= |text| && (next.Some? ==> i < next.value.0) ==> MatchAt(text, i, pattern).None?
    decreases |text| - from
  {
    var end := MatchAt(text, from, pattern);
    if end.Some? then Some((from, end.value))
    else if from == |text| then None
    else NextMatch(text, from + 1, pattern)
  }

  /** How many matches from `from` on, none overlapping the one before. */
  function CountFrom(text: string, from: nat, pattern: string): nat
    requires from <= |text| && pattern != ""
    decreases |text| - from
  {
    var next := NextMatch(text, from, pattern);
    if next.None? then 0 else 1 + CountFrom(text, next.value.1, pattern)
  }

  /** How many times the anchor occurs. An empty anchor occurs nowhere. */
  function CountAnchor(text: string, anchor: string): nat {
    if anchor == "" || ToLf(anchor) == "" then 0 else CountFrom(text, 0, ToLf(anchor))
  }

  function IndexOf(text: string, c: char, from: nat): (i: Option<nat>)
    ensures i.Some? ==> from <= i.value < |text| && text[i.value] == c
    decreases |text| - from
  {
    if from >= |text| then None else if text[from] == c then Some(from) else IndexOf(text, c, from + 1)
  }

  /** The ending of the match's first line break, or of the line holding the match when it spans none. */
  function LineEndingOf(text: string, start: nat, end: nat): LineEnding
    requires start <= end <= |text|
  {
    var inMatch := IndexOf(text[start..end], '\n', 0);
    if inMatch.Some? then
      if inMatch.value > 0 && text[start..end][inMatch.value - 1] == '\r' then Crlf else Lf
    else
      var after := IndexOf(text, '\n', start);
      if after.Some? && after.value > 0 && text[after.value - 1] == '\r' then Crlf else Lf
  }

  function LocateAnchor(text: string, anchor: string): Location {
    var count := CountAnchor(text, anchor);
    if count != 1 then NotFound(count)
    else
      var next := NextMatch(text, 0, ToLf(anchor));
      if next.None? then NotFound(0)
      else Found(Match(next.value.0, next.value.1, LineEndingOf(text, next.value.0, next.value.1)))
  }

  /** Replaces the anchor's one occurrence, writing each line break with the ending the match used. */
  function ReplaceAnchor(text: string, anchor: string, replacement: string): (replaced: Replacement)
    ensures replaced.Applied? ==>
              && replaced.match_.start <= replaced.match_.end <= |text|
              && replaced.match_.start <= replaced.replacementEnd <= |replaced.text|
              && replaced.text[..replaced.match_.start] == text[..replaced.match_.start]
              && replaced.text[replaced.replacementEnd..] == text[replaced.match_.end..]
  {
    match LocateAnchor(text, anchor)
    case NotFound(count) => NotApplied(count)
    case Found(m) =>
      var written := WithLineEnding(replacement, m.lineEnding);
      Applied(text[..m.start] + written + text[m.end..], m, m.start + |written|)
  }

  /** A pattern with no carriage return matches exactly the texts that read as it once their line breaks are LF. */
  lemma {:induction false} MatchReads(text: string, i: nat, pattern: string, end: nat)
    requires '\r' !in pattern && i <= end <= |text|
    ensures MatchAt(text, i, pattern) == Some(end) <==> ToLf(text[i..end]) == pattern
    decreases |pattern|
  {
    var read := text[i..end];
    if pattern == "" {
      assert read == "" <==> i == end;
    } else if i < end {
      var rest := pattern[1..];
      assert pattern == [pattern[0]] + rest;
      if |read| > 1 && read[0] == '\r' && read[1] == '\n' {
        assert read[2..] == text[i + 2..end];
        MatchReads(text, i + 2, rest, end);
        assert ToLf(read) == ['\n'] + ToLf(text[i + 2..end]);
      } else {
        assert read[1..] == text[i + 1..end];
        assert ToLf(read) == [read[0]] + ToLf(text[i + 1..end]);
        MatchReads(text, i + 1, rest, end);
        if text[i] == '\r' && i + 1 < |text| && text[i + 1] == '\n' {
          assert end == i + 1;
        }
      }
    } else {
      assert read == "";
    }
  }

  /** The pattern matches there, no match starts before it, and none starts once it has ended. */
  ghost predicate LoneMatch(text: string, pattern: string, start: nat, end: nat) {
    && start <= |text| && MatchAt(text, start, pattern) == Some(end)
    && forall i :: 0 <= i < start || end <= i <= |text| ==> MatchAt(text, i, pattern).None?
  }

  /** The anchor is found, and there, exactly when it has one match that stands alone, and this is it. */
  lemma FoundExactlyOnce(text: string, anchor: string, start: nat, end: nat)
    requires anchor != ""
    ensures ToLf(anchor) != ""
    ensures LoneMatch(text, ToLf(anchor), start, end) <==>
            && LocateAnchor(text, anchor).Found?
            && LocateAnchor(text, anchor).match_.start == start && LocateAnchor(text, anchor).match_.end == end
    ensures LocateAnchor(text, anchor).NotFound? ==> LocateAnchor(text, anchor).count == CountAnchor(text, anchor) != 1
  {
    var pattern := ToLf(anchor);
    assert pattern != "";
    hide MatchAt, ToLf, LineEndingOf;
    var next := NextMatch(text, 0, pattern);
    assert next.Some? ==> CountFrom(text, 0, pattern) == 1 + CountFrom(text, next.value.1, pattern);
    if CountAnchor(text, anchor) == 1 {
      assert NextMatch(text, next.value.1, pattern).None?;
    }
    if LoneMatch(text, pattern, start, end) {
      assert next.Some? && next.value == (start, end);
      assert NextMatch(text, end, pattern).None?;
    }
    hide NextMatch;
  }

  /** Writing line breaks with either ending keeps what the text reads as. */
  lemma {:induction false} BreaksReadAlike(lf: string)
    requires '\r' !in lf
    ensures ToLf(WithBreaks(lf)) == lf && ToLf(lf) == lf
  {
    if lf != "" {
      BreaksReadAlike(lf[1..]);
      var rest := WithBreaks(lf[1..]);
      if lf[0] == '\n' {
        var written := "\r\n" + rest;
        assert WithBreaks(lf) == written && written[2..] == rest;
      } else {
        var written := [lf[0]] + rest;
        assert WithBreaks(lf) == written && written[1..] == rest;
      }
      assert lf == [lf[0]] + lf[1..];
    }
  }

  /**
   * With no lone carriage return in either, what is replaced reads as the anchor and what is written as the
   * replacement.
   */
  lemma ReplacesReading(text: string, anchor: string, replacement: string)
    requires '\r' !in ToLf(anchor) && '\r' !in ToLf(replacement)
    requires ReplaceAnchor(text, anchor, replacement).Applied?
    ensures var replaced := ReplaceAnchor(text, anchor, replacement);
            && ToLf(text[replaced.match_.start..replaced.match_.end]) == ToLf(anchor)
            && ToLf(replaced.text[replaced.match_.start..replaced.replacementEnd]) == ToLf(replacement)
  {
    var m := LocateAnchor(text, anchor).match_;
    MatchReads(text, m.start, ToLf(anchor), m.end);
    var written := WithLineEnding(replacement, m.lineEnding);
    BreaksReadAlike(ToLf(replacement));
    assert (text[..m.start] + written + text[m.end..])[m.start..m.start + |written|] == written;
    hide MatchAt, LineEndingOf, NextMatch, CountFrom;
  }
}
