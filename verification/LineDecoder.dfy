/** Splitting a connection's bytes into lines, whatever chunks they arrive in. */
module LineDecoders {

  type Byte = b: int | 0 <= b < 256

  const NEWLINE: Byte := 0x0a
  /** Frozen: no version may lower it. */
  const MAX_LINE_BYTES: nat := 1024 * 1024

  datatype DecodedLine = Line(bytes: seq<Byte>) | TooLong

  ghost function LineOf(bytes: seq<Byte>): DecodedLine {
    if |bytes| > MAX_LINE_BYTES then TooLong else Line(bytes)
  }

  /** Where the first newline stands, or the length when there is none. */
  function NextNewline(bytes: seq<Byte>, from: nat): (end: nat)
    requires from <= |bytes|
    ensures from <= end <= |bytes| && NEWLINE !in bytes[from..end] && (end < |bytes| ==> bytes[end] == NEWLINE)
    decreases |bytes| - from
  {
    if from == |bytes| || bytes[from] == NEWLINE then from
    else
      var end := NextNewline(bytes, from + 1);
      assert bytes[from..end] == [bytes[from]] + bytes[from + 1..end];
      end
  }

  /** The lines the stream has ended, each of them whole. */
  ghost function Ended(stream: seq<Byte>): seq<DecodedLine> {
    var end := NextNewline(stream, 0);
    if end == |stream| then [] else [LineOf(stream[..end])] + Ended(stream[end + 1..])
  }

  /** What the stream holds of a line not ended yet. */
  ghost function Tail(stream: seq<Byte>): seq<Byte> {
    var end := NextNewline(stream, 0);
    if end == |stream| then stream else Tail(stream[end + 1..])
  }

  /** What a stream decodes to: each line it ended, and at its end a mark when the line begun is too long already. */
  ghost function Decoded(stream: seq<Byte>): seq<DecodedLine> {
    Ended(stream) + if |Tail(stream)| > MAX_LINE_BYTES then [TooLong] else []
  }

  lemma NextNewlineIs(bytes: seq<Byte>, end: nat)
    requires end <= |bytes| && NEWLINE !in bytes[..end] && (end < |bytes| ==> bytes[end] == NEWLINE)
    ensures NextNewline(bytes, 0) == end
  {
    var found := NextNewline(bytes, 0);
    assert forall k :: 0 <= k < end ==> bytes[k] == bytes[..end][k];
    assert forall k :: 0 <= k < found ==> bytes[k] == bytes[0..found][k];
  }

  lemma {:induction false} AppendPart(stream: seq<Byte>, part: seq<Byte>)
    requires NEWLINE !in part
    ensures Ended(stream + part) == Ended(stream) && Tail(stream + part) == Tail(stream) + part
  {
    var end := NextNewline(stream, 0);
    var all := stream + part;
    if end == |stream| {
      assert all[..|all|] == stream[0..end] + part;
      NextNewlineIs(all, |all|);
    } else {
      assert all[..end] == stream[0..end];
      NextNewlineIs(all, end);
      assert all[end + 1..] == stream[end + 1..] + part;
      AppendPart(stream[end + 1..], part);
    }
  }

  lemma {:induction false} AppendNewline(stream: seq<Byte>)
    ensures Ended(stream + [NEWLINE]) == Ended(stream) + [LineOf(Tail(stream))]
    ensures Tail(stream + [NEWLINE]) == []
  {
    var end := NextNewline(stream, 0);
    var all := stream + [NEWLINE];
    assert all[..end] == stream[0..end];
    NextNewlineIs(all, end);
    if end == |stream| {
      assert all[end + 1..] == [] && all[..end] == stream;
      NextNewlineIs([], 0);
      assert Ended(all) == [LineOf(stream)] + Ended([]);
    } else {
      assert all[end + 1..] == stream[end + 1..] + [NEWLINE];
      AppendNewline(stream[end + 1..]);
      assert [LineOf(stream[..end])] + (Ended(stream[end + 1..]) + [LineOf(Tail(stream))])
             == ([LineOf(stream[..end])] + Ended(stream[end + 1..])) + [LineOf(Tail(stream))];
    }
  }

  /** What a part with no newline adds: a mark when it takes the line begun over the limit. */
  lemma AppendDecodes(stream: seq<Byte>, part: seq<Byte>)
    requires NEWLINE !in part
    ensures Tail(stream + part) == Tail(stream) + part
    ensures Decoded(stream + part) ==
            Decoded(stream) + if |Tail(stream)| <= MAX_LINE_BYTES < |Tail(stream)| + |part| then [TooLong] else []
  {
    AppendPart(stream, part);
    hide Tail, Ended;
  }

  /** What a newline adds: the line it ends, unless that line was marked too long already. */
  lemma NewlineDecodes(stream: seq<Byte>)
    ensures Tail(stream + [NEWLINE]) == []
    ensures Decoded(stream + [NEWLINE]) ==
            Decoded(stream) + if |Tail(stream)| > MAX_LINE_BYTES then [] else [Line(Tail(stream))]
  {
    AppendNewline(stream);
    hide Tail, Ended;
  }

  ghost function Concatenated(parts: seq<seq<Byte>>): seq<Byte> {
    if parts == [] then [] else Concatenated(parts[..|parts| - 1]) + parts[|parts| - 1]
  }

  class LineDecoder {
    var parts: seq<seq<Byte>>
    var size: nat
    var discarding: bool
    /** Everything pushed so far. */
    ghost var stream: seq<Byte>

    /** It holds the line begun, or nothing of one it discards, never more than the limit. */
    ghost predicate Valid()
      reads this
    {
      && size == |Concatenated(parts)| <= MAX_LINE_BYTES
      && (discarding <==> |Tail(stream)| > MAX_LINE_BYTES)
      && Concatenated(parts) == if discarding then [] else Tail(stream)
    }

    constructor ()
      ensures Valid() && stream == []
    {
      parts, size, discarding, stream := [], 0, false, [];
      new;
      NextNewlineIs([], 0);
    }

    /** The lines the chunk completes, so far as the stream pushed decodes to them. */
    method Push(chunk: seq<Byte>) returns (lines: seq<DecodedLine>)
      requires Valid()
      modifies this
      ensures Valid() && stream == old(stream) + chunk && Decoded(stream) == Decoded(old(stream)) + lines
    {
      hide *;
      lines := [];
      var start := 0;
      var end := NextNewline(chunk, 0);
      while end < |chunk|
        invariant 0 <= start <= end <= |chunk|
        invariant NEWLINE !in chunk[start..end] && (end < |chunk| ==> chunk[end] == NEWLINE)
        invariant Valid() && stream == old(stream) + chunk[..start]
        invariant Decoded(stream) == Decoded(old(stream)) + lines
        decreases |chunk| - start
      {
        var long := Append(chunk[start..end]);
        var line := EndLine();
        TakesLine(old(stream), chunk, start, end);
        lines := lines + long + line;
        start := end + 1;
        end := NextNewline(chunk, start);
      }
      var long := Append(chunk[start..]);
      TakesRest(old(stream), chunk, start);
      lines := lines + long;
    }

    method Append(part: seq<Byte>) returns (lines: seq<DecodedLine>)
      requires Valid() && NEWLINE !in part
      modifies this
      ensures Valid() && stream == old(stream) + part && Decoded(stream) == Decoded(old(stream)) + lines
    {
      AppendDecodes(stream, part);
      hide Tail, Decoded, Concatenated;
      stream := stream + part;
      if discarding || |part| == 0 {
        assert Tail(old(stream)) + part == Tail(stream);
        return [];
      }
      if size + |part| > MAX_LINE_BYTES {
        Reset();
        discarding := true;
        return [TooLong];
      }
      AddPart(parts, part);
      parts, size := parts + [part], size + |part|;
      return [];
    }

    method EndLine() returns (lines: seq<DecodedLine>)
      requires Valid()
      modifies this
      ensures Valid() && stream == old(stream) + [NEWLINE] && Decoded(stream) == Decoded(old(stream)) + lines
    {
      NewlineDecodes(stream);
      hide Tail, Decoded, Concatenated;
      stream := stream + [NEWLINE];
      if discarding {
        discarding := false;
        return [];
      }
      var text := Join(parts);
      Reset();
      return [Line(text)];
    }

    method Reset()
      modifies this`parts, this`size
      ensures parts == [] && Concatenated(parts) == [] && size == 0
    {
      parts, size := [], 0;
    }
  }

  lemma TakesLine(before: seq<Byte>, chunk: seq<Byte>, start: nat, end: nat)
    requires start <= end < |chunk| && chunk[end] == NEWLINE
    ensures before + chunk[..start] + chunk[start..end] + [NEWLINE] == before + chunk[..end + 1]
  {
    assert chunk[..end + 1] == chunk[..start] + chunk[start..end] + [NEWLINE];
  }

  lemma TakesRest(before: seq<Byte>, chunk: seq<Byte>, start: nat)
    requires start <= |chunk|
    ensures before + chunk[..start] + chunk[start..] == before + chunk
  {
    assert chunk == chunk[..start] + chunk[start..];
  }

  lemma AddPart(parts: seq<seq<Byte>>, part: seq<Byte>)
    ensures Concatenated(parts + [part]) == Concatenated(parts) + part
  {
    assert (parts + [part])[..|parts|] == parts;
  }

  method Join(parts: seq<seq<Byte>>) returns (all: seq<Byte>)
    ensures all == Concatenated(parts)
  {
    all := [];
    for i := 0 to |parts|
      invariant all == Concatenated(parts[..i])
    {
      assert parts[..i + 1] == parts[..i] + [parts[i]];
      AddPart(parts[..i], parts[i]);
      all := all + parts[i];
    }
    assert parts[..|parts|] == parts;
  }

  /** A connection's chunks as they arrive, decoded one by one: the same lines however the stream is cut. */
  method DecodeChunks(chunks: seq<seq<Byte>>) returns (lines: seq<DecodedLine>)
    ensures lines == Decoded(Concatenated(chunks))
  {
    var decoder := new LineDecoder();
    lines := [];
    NothingDecodes();
    for i := 0 to |chunks|
      invariant decoder.Valid() && fresh(decoder)
      invariant decoder.stream == Concatenated(chunks[..i]) && lines == Decoded(decoder.stream)
    {
      hide Decoded, LineDecoder.Valid;
      assert chunks[..i + 1] == chunks[..i] + [chunks[i]];
      AddPart(chunks[..i], chunks[i]);
      var more := decoder.Push(chunks[i]);
      lines := lines + more;
    }
    assert chunks[..|chunks|] == chunks;
  }

  lemma NothingDecodes()
    ensures Decoded([]) == []
  {
    NextNewlineIs([], 0);
  }

  /** The messages as they are written: each on a line of its own. */
  ghost function Encoded(messages: seq<seq<Byte>>): seq<Byte> {
    if messages == [] then [] else Encoded(messages[..|messages| - 1]) + messages[|messages| - 1] + [NEWLINE]
  }

  ghost function LinesOf(messages: seq<seq<Byte>>): seq<DecodedLine> {
    if messages == [] then [] else LinesOf(messages[..|messages| - 1]) + [Line(messages[|messages| - 1])]
  }

  lemma {:induction false} LinesOfEach(messages: seq<seq<Byte>>)
    ensures |LinesOf(messages)| == |messages|
    ensures forall i :: 0 <= i < |messages| ==> LinesOf(messages)[i] == Line(messages[i])
  {
    if messages != [] { LinesOfEach(messages[..|messages| - 1]); }
  }

  /** Messages that hold no line break and fit the limit are decoded as they were written, one line each, in order. */
  lemma {:induction false} DecodesWhatIsEncoded(messages: seq<seq<Byte>>)
    requires forall m :: m in messages ==> NEWLINE !in m && |m| <= MAX_LINE_BYTES
    ensures Ended(Encoded(messages)) == LinesOf(messages) && Tail(Encoded(messages)) == []
    ensures Decoded(Encoded(messages)) == LinesOf(messages)
  {
    if messages == [] {
      NextNewlineIs([], 0);
    } else {
      var before, last := messages[..|messages| - 1], messages[|messages| - 1];
      DecodesWhatIsEncoded(before);
      AppendPart(Encoded(before), last);
      AppendNewline(Encoded(before) + last);
      hide Tail, Ended;
      assert [] + last == last;
    }
  }
}
