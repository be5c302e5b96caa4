/** The JSONL request lines of the agent adapter, read through a buffer that may be filled in any pieces. */
module AgentInput {
  import opened Base
  import opened LineSplit

  const AGENT_INPUT_MAX_BYTES: nat := 128 * 1024

  /** A buffered reader over `data`: bytes before `pos` are consumed, those in `[pos, filled)` are buffered. */
  class BufferedInput {
    const data: seq<byte>
    var pos: nat
    var filled: nat

    ghost predicate Valid()
      reads this
    {
      pos <= filled <= |data|
    }

    constructor (input: seq<byte>)
      ensures Valid() && data == input && pos == 0
    {
      data, pos, filled := input, 0, 0;
    }

    /** An exhausted buffer is refilled by a read of any size; it stays empty only at the end of the input. */
    method FillBuf() returns (buffer: seq<byte>)
      requires Valid()
      modifies `filled
      ensures Valid() && buffer == data[pos..filled]
      ensures buffer == [] <==> pos == |data|
    {
      if pos == filled && filled < |data| {
        var end :| filled < end <= |data|;
        filled := end;
      }
      buffer := data[pos..filled];
    }

    method Consume(n: nat)
      requires Valid() && pos + n <= filled
      modifies `pos
      ensures Valid() && pos == old(pos) + n
    {
      pos := pos + n;
    }
  }

  method FindNewline(buffer: seq<byte>) returns (position: Option<nat>)
    ensures position.None? ==> NEWLINE !in buffer
    ensures position.Some? ==>
              && position.value < |buffer| && buffer[position.value] == NEWLINE
              && NEWLINE !in buffer[..position.value]
  {
    for i := 0 to |buffer|
      invariant NEWLINE !in buffer[..i]
    {
      if buffer[i] == NEWLINE {
        return Some(i);
      }
    }
    return None;
  }

  /** Bytes `[start, at)` belong to one line that has not ended yet. */
  ghost predicate MidLine(data: seq<byte>, start: nat, at: nat) {
    start <= at <= |data| && NEWLINE !in data[start..at]
  }

  lemma LineGoesOn(data: seq<byte>, start: nat, at: nat, n: nat)
    requires MidLine(data, start, at) && at + n <= |data| && NEWLINE !in data[at..at + n]
    ensures MidLine(data, start, at + n)
  {
    assert data[start..at + n] == data[start..at] + data[at..at + n];
  }

  /** Extending the line by a piece keeps it the piece's prefix of the data, or records that it outgrew the bound. */
  ghost predicate Collected(data: seq<byte>, start: nat, at: nat, line: seq<byte>, oversized: bool, maximum: nat)
    requires start <= at <= |data|
  {
    && |line| <= maximum
    && oversized == (at - start > maximum)
    && (!oversized ==> line == data[start..at])
  }

  /** Keep a piece of the line while it fits; once it does not, only remember that. */
  function Extend(line: seq<byte>, oversized: bool, piece: seq<byte>, maximum: nat): (seq<byte>, bool) {
    if oversized || |piece| > SatSub(maximum, |line|) then (line, true) else (line + piece, false)
  }

  lemma ExtendCollects(data: seq<byte>, start: nat, at: nat, n: nat, line: seq<byte>, oversized: bool, maximum: nat)
    requires start <= at && 0 < n && at + n <= |data|
    requires Collected(data, start, at, line, oversized, maximum)
    ensures var e := Extend(line, oversized, data[at..at + n], maximum);
            Collected(data, start, at + n, e.0, e.1, maximum)
  {
    assert data[start..at + n] == data[start..at] + data[at..at + n];
  }

  /** A newline closes the line at the byte after it. */
  lemma LineCloses(data: seq<byte>, start: nat, at: nat, n: nat)
    requires MidLine(data, start, at) && at + n < |data| && NEWLINE !in data[at..at + n] && data[at + n] == NEWLINE
    ensures LineEnd(data, start) == at + n + 1
  {
    LineGoesOn(data, start, at, n);
    LineEndIs(data, start, at + n + 1);
  }

  /**
   * `read_bounded_agent_line`.  However the input arrives, one call consumes exactly one line; the line is
   * returned whole or, when terminator included it is longer than `maximum`, reported as oversized.
   */
  method ReadBoundedLine(reader: BufferedInput, maximum: nat) returns (result: Option<bool>, line: seq<byte>)
    requires reader.Valid() && maximum <= U64_MAX
    modifies reader
    ensures reader.Valid() && |line| <= maximum
    ensures result.None? <==> old(reader.pos) == |reader.data|
    ensures result.None? ==> reader.pos == old(reader.pos)
    ensures result.Some? ==> reader.pos == LineEnd(reader.data, old(reader.pos))
    ensures result.Some? ==> Collected(reader.data, old(reader.pos), reader.pos, line, result.value, maximum)
  {
    line := [];
    var oversized := false;
    ghost var start := reader.pos;
    while true
      invariant reader.Valid() && MidLine(reader.data, start, reader.pos)
      invariant Collected(reader.data, start, reader.pos, line, oversized, maximum)
      decreases |reader.data| - reader.pos
    {
      var buffer := reader.FillBuf();
      if buffer == [] {
        if line == [] && !oversized {
          return None, line;
        }
        LineEndIs(reader.data, start, reader.pos);
        return Some(oversized), line;
      }
      var position := FindNewline(buffer);
      var consumed := if position.Some? then position.value + 1 else |buffer|;
      ghost var at := reader.pos;
      var piece := buffer[..consumed];
      assert piece == reader.data[at..at + consumed];
      ExtendCollects(reader.data, start, at, consumed, line, oversized, maximum);
      var extended := Extend(line, oversized, piece, maximum);
      line, oversized := extended.0, extended.1;
      reader.Consume(consumed);
      if position.Some? {
        assert buffer[..consumed - 1] == reader.data[at..at + consumed - 1];
        LineCloses(reader.data, start, at, consumed - 1);
        return Some(oversized), line;
      }
      assert piece == buffer;
      LineGoesOn(reader.data, start, at, consumed);
    }
  }

  /** What the adapter makes of line `i`: the request text, or the input-too-large error. */
  function Handled(input: seq<byte>, i: nat, maximum: nat): Option<seq<byte>>
    requires i < |Lines(input)|
  {
    if |Lines(input)[i]| > maximum then None else Some(Lines(input)[i])
  }

  lemma SpansStartAt(data: seq<byte>, i: nat)
    requires i <= |Spans(data)|
    ensures i == |Spans(data)| <==> Offset(data, i) == |data|
    ensures i < |Spans(data)| ==> LineEnd(data, Offset(data, i)) == Offset(data, i + 1)
  {
    if i < |Spans(data)| {
      SpansSplit(data);
      assert IsLine(data, Spans(data), i);
      SpanAt(data, i);
      LineEndIs(data, Spans(data)[i].start, Spans(data)[i].end);
    }
  }

  /**
   * The adapter's input loop: for every way of filling the buffer, the requests are the lines of the
   * input, each once and in order, and an oversized one never shifts those after it.
   */
  method ReadRequests(input: seq<byte>) returns (handled: seq<Option<seq<byte>>>)
    ensures |handled| == |Lines(input)|
    ensures forall i :: 0 <= i < |handled| ==> handled[i] == Handled(input, i, AGENT_INPUT_MAX_BYTES)
  {
    var reader := new BufferedInput(input);
    handled := [];
    OffsetZero(input);
    while true
      invariant fresh(reader) && reader.Valid() && reader.data == input
      invariant |handled| <= |Lines(input)| && reader.pos == Offset(input, |handled|)
      invariant forall i :: 0 <= i < |handled| ==> handled[i] == Handled(input, i, AGENT_INPUT_MAX_BYTES)
      decreases |Lines(input)| - |handled|
    {
      SpansStartAt(input, |handled|);
      var result, line := ReadBoundedLine(reader, AGENT_INPUT_MAX_BYTES);
      if result.None? {
        break;
      }
      OffsetStep(input, |handled|);
      handled := handled + [if result.value then None else Some(line)];
    }
  }
}
