/** Splitting bytes into lines, each through its newline; shared by file patches and the agent's input. */
module LineSplit {
  import opened Base

  datatype Span = Span(start: nat, end: nat)

  /** Where the line being scanned began, after `k` bytes. */
  function LineStart(data: seq<byte>, k: nat): (r: nat)
    requires k <= |data|
    ensures r <= k
  {
    if k == 0 then 0 else if data[k - 1] == NEWLINE then k else LineStart(data, k - 1)
  }

  /** The newline-terminated lines of the first `k` bytes. */
  function FullLines(data: seq<byte>, k: nat): seq<Span>
    requires k <= |data|
  {
    if k == 0 then []
    else if data[k - 1] == NEWLINE then FullLines(data, k - 1) + [Span(LineStart(data, k - 1), k)]
    else FullLines(data, k - 1)
  }

  /** `split_patch_lines`: terminated lines, then an unterminated last line if there is one. */
  function Spans(data: seq<byte>): seq<Span> {
    FullLines(data, |data|)
    + if LineStart(data, |data|) < |data| then [Span(LineStart(data, |data|), |data|)] else []
  }

  method SplitPatchLines(data: seq<byte>) returns (lines: seq<Span>)
    ensures lines == Spans(data)
  {
    lines := [];
    var start := 0;
    for index := 0 to |data|
      invariant start == LineStart(data, index) && lines == FullLines(data, index)
    {
      if data[index] == NEWLINE {
        lines := lines + [Span(start, index + 1)];
        start := index + 1;
      }
    }
    if start < |data| {
      lines := lines + [Span(start, |data|)];
    }
  }

  function EndOf(lines: seq<Span>): nat {
    if lines == [] then 0 else lines[|lines| - 1].end
  }

  /** Line `i` starts where the previous one ended and runs through its first newline, or to the end of the data. */
  predicate IsLine(data: seq<byte>, lines: seq<Span>, i: nat)
    requires i < |lines|
  {
    && lines[i].start == EndOf(lines[..i])
    && lines[i].start < lines[i].end <= |data|
    && NEWLINE !in data[lines[i].start..lines[i].end - 1]
    && (lines[i].end < |data| ==> data[lines[i].end - 1] == NEWLINE)
  }

  predicate IsLineSplit(data: seq<byte>, lines: seq<Span>) {
    && (forall i :: 0 <= i < |lines| ==> IsLine(data, lines, i))
    && EndOf(lines) == |data|
  }

  lemma PushLine(data: seq<byte>, lines: seq<Span>, span: Span)
    requires forall i :: 0 <= i < |lines| ==> IsLine(data, lines, i)
    requires span.start == EndOf(lines) && span.start < span.end <= |data|
    requires NEWLINE !in data[span.start..span.end - 1]
    requires span.end < |data| ==> data[span.end - 1] == NEWLINE
    ensures forall i :: 0 <= i < |lines| + 1 ==> IsLine(data, lines + [span], i)
  {
    forall i | 0 <= i < |lines| + 1 ensures IsLine(data, lines + [span], i) {
      assert (lines + [span])[..i] == lines[..i];
      assert i < |lines| ==> IsLine(data, lines, i);
      assert lines[..|lines|] == lines;
    }
  }

  lemma {:induction false} FullLinesSplit(data: seq<byte>, k: nat)
    requires k <= |data|
    ensures forall i :: 0 <= i < |FullLines(data, k)| ==> IsLine(data, FullLines(data, k), i)
    ensures EndOf(FullLines(data, k)) == LineStart(data, k)
    ensures NEWLINE !in data[LineStart(data, k)..k]
  {
    if k > 0 {
      FullLinesSplit(data, k - 1);
      if data[k - 1] == NEWLINE {
        PushLine(data, FullLines(data, k - 1), Span(LineStart(data, k - 1), k));
      }
    }
  }

  /** The split is the tiling into lines. */
  lemma SpansSplit(data: seq<byte>)
    ensures IsLineSplit(data, Spans(data))
  {
    FullLinesSplit(data, |data|);
    if LineStart(data, |data|) < |data| {
      PushLine(data, FullLines(data, |data|), Span(LineStart(data, |data|), |data|));
    } else {
      assert Spans(data) == FullLines(data, |data|);
    }
  }

  /** The end of the line that starts at `start`, searching forward for its newline. */
  function LineEnd(data: seq<byte>, start: nat): (r: nat)
    requires start < |data|
    ensures start < r <= |data|
    decreases |data| - start
  {
    if data[start] == NEWLINE || start + 1 == |data| then start + 1 else LineEnd(data, start + 1)
  }

  lemma {:induction false} LineEndIs(data: seq<byte>, start: nat, end: nat)
    requires start < end <= |data| && NEWLINE !in data[start..end - 1]
    requires end < |data| ==> data[end - 1] == NEWLINE
    ensures LineEnd(data, start) == end
    decreases |data| - start
  {
    if start + 1 < end {
      assert data[start] == data[start..end - 1][0];
      LineEndIs(data, start + 1, end);
    }
  }

  function SpansFrom(data: seq<byte>, start: nat): seq<Span>
    requires start <= |data|
    decreases |data| - start
  {
    if start == |data| then [] else [Span(start, LineEnd(data, start))] + SpansFrom(data, LineEnd(data, start))
  }

  lemma {:induction false} SplitDetermined(data: seq<byte>, x: seq<Span>, i: nat)
    requires IsLineSplit(data, x) && i <= |x|
    ensures EndOf(x[..i]) <= |data| && x[i..] == SpansFrom(data, EndOf(x[..i]))
    decreases |x| - i
  {
    if i == |x| {
      assert x[..i] == x;
    } else {
      assert IsLine(data, x, i);
      LineEndIs(data, x[i].start, x[i].end);
      SplitDetermined(data, x, i + 1);
      assert EndOf(x[..i + 1]) == x[i].end && x[i..] == [x[i]] + x[i + 1..];
    }
  }

  /** There is only one tiling into lines, so nothing but the split of the source satisfies the description. */
  lemma SplitUnique(data: seq<byte>, x: seq<Span>)
    requires IsLineSplit(data, x)
    ensures x == Spans(data)
  {
    SpansSplit(data);
    SplitDetermined(data, x, 0);
    SplitDetermined(data, Spans(data), 0);
    assert x[0..] == x && Spans(data)[0..] == Spans(data);
  }

  lemma SpanAt(data: seq<byte>, i: nat)
    requires i < |Spans(data)|
    ensures Spans(data)[i].start < Spans(data)[i].end <= |data|
    ensures Spans(data)[i].end == if i + 1 < |Spans(data)| then Spans(data)[i + 1].start else |data|
    ensures i == 0 ==> Spans(data)[i].start == 0
  {
    SpansSplit(data);
    assert IsLine(data, Spans(data), i);
    assert i + 1 < |Spans(data)| ==> IsLine(data, Spans(data), i + 1);
  }

  /** `patch_line_offset`. */
  function Offset(data: seq<byte>, index: nat): (r: nat)
    ensures r <= |data|
  {
    if index < |Spans(data)| then SpanAt(data, index); Spans(data)[index].start else |data|
  }

  function Line(data: seq<byte>, i: nat): seq<byte>
    requires i < |Spans(data)|
  {
    SpanAt(data, i);
    data[Spans(data)[i].start..Spans(data)[i].end]
  }

  /** The text of every line, terminators included. */
  function Lines(data: seq<byte>): (r: seq<seq<byte>>)
    ensures |r| == |Spans(data)|
  {
    seq(|Spans(data)|, i requires 0 <= i < |Spans(data)| => Line(data, i))
  }

  /** Offsets increase strictly, start at 0, end at the length, and delimit the lines. */
  lemma OffsetStep(data: seq<byte>, i: nat)
    requires i < |Lines(data)|
    ensures Offset(data, i) < Offset(data, i + 1)
    ensures Lines(data)[i] == data[Offset(data, i)..Offset(data, i + 1)]
  {
    SpanAt(data, i);
  }

  lemma OffsetZero(data: seq<byte>)
    ensures Offset(data, 0) == 0
  {
    SpansSplit(data);
    if Spans(data) != [] {
      SpanAt(data, 0);
    }
  }

  lemma {:induction false} OffsetMonotone(data: seq<byte>, i: nat, j: nat)
    requires i <= j <= |Lines(data)|
    ensures Offset(data, i) <= Offset(data, j)
    ensures i < j ==> Offset(data, i) < Offset(data, j)
    decreases j - i
  {
    if i < j {
      OffsetStep(data, i);
      OffsetMonotone(data, i + 1, j);
    }
  }
}
