/**
 * Deriving the ranges of a patch from the two versions of a file.
 *
 * The line path closes its last edit at the cursors of the walk, not at the ends of the
 * files.  `LineResult` is what the server then materialises; `LineResultExact` says when that
 * is the intended file, and `ClosedLinePatch` is the same derivation with the last
 * edit run to both ends, for which the round trip always holds.
 */
module PatchDerive {
  import opened Base
  import opened LineSplit
  import opened PatchApply
  import opened PatchScript
  import opened PatchLcs
  import opened PatchLines

  const LINE_MAX_LINES: nat := 2048
  const LINE_MAX_LCS_CELLS: nat := 4_000_000
  const MAX_DERIVED_RANGES: nat := 4096

  /** The files are small enough for the table. */
  predicate LineBounded(base: seq<byte>, target: seq<byte>) {
    && |Lines(base)| <= LINE_MAX_LINES && |Lines(target)| <= LINE_MAX_LINES
    && (|Lines(base)| + 1) * (|Lines(target)| + 1) <= LINE_MAX_LCS_CELLS
  }

  /** The walk consumes both files completely. */
  predicate WalkCompletes(base: seq<byte>, target: seq<byte>) {
    WalkEnd(Lines(base), Lines(target), 0, 0) == (|Lines(base)|, |Lines(target)|)
  }

  /** The target up to the walk's target cursor, then the base from its base cursor. */
  function LineResult(base: seq<byte>, target: seq<byte>): seq<byte> {
    var (i, j) := WalkEnd(Lines(base), Lines(target), 0, 0);
    target[..Offset(target, j)] + base[Offset(base, i)..]
  }

  /** Consecutive ranges are more than the coalescing gap apart. */
  predicate RangesSeparated(ranges: seq<FilePatchRange>) {
    forall i :: 0 <= i < |ranges| - 1 ==> ranges[i].End() + COALESCE_GAP_BYTES < ranges[i + 1].offset
  }

  /** The ranges of a script after coalescing. */
  function Derived(base: seq<byte>, target: seq<byte>, edits: seq<Edit>, b: nat, t: nat): seq<FilePatchRange>
    requires Script(base, target, edits, b, t)
  {
    CoalesceKeepsScript(base, target, edits, b, t);
    ToRanges(base, target, Coalesce(edits), b, t)
  }

  lemma DerivedAt(base: seq<byte>, target: seq<byte>, edits: seq<Edit>, b: nat, t: nat, i: nat)
    requires Script(base, target, edits, b, t) && i < |Coalesce(edits)|
    ensures |Derived(base, target, edits, b, t)| == |Coalesce(edits)|
    ensures var e := Coalesce(edits)[i];
            && e.baseStart <= e.baseEnd && e.targetStart <= e.targetEnd <= |target|
            && Derived(base, target, edits, b, t)[i] == e.ToRange(target)
  {
    CoalesceKeepsScript(base, target, edits, b, t);
    ToRangesAt(base, target, Coalesce(edits), b, t, i);
  }

  lemma DerivedSeparated(base: seq<byte>, target: seq<byte>, edits: seq<Edit>, b: nat, t: nat)
    requires Script(base, target, edits, b, t)
    ensures RangesSeparated(Derived(base, target, edits, b, t))
    ensures |Derived(base, target, edits, b, t)| <= |edits|
  {
    var coalesced, ranges := Coalesce(edits), Derived(base, target, edits, b, t);
    CoalesceSeparates(edits);
    forall i | 0 <= i < |ranges| - 1 ensures ranges[i].End() + COALESCE_GAP_BYTES < ranges[i + 1].offset {
      DerivedAt(base, target, edits, b, t, i);
      DerivedAt(base, target, edits, b, t, i + 1);
    }
  }

  /** What the coalesced ranges of any script do to the base. */
  lemma DerivedPatch(base: seq<byte>, target: seq<byte>, edits: seq<Edit>, b: nat, t: nat)
    requires Script(base, target, edits, b, t)
    ensures WellFormed(Derived(base, target, edits, b, t), |base|)
    ensures Apply(base, Derived(base, target, edits, b, t), |base|) == target[..t] + base[b..]
  {
    CoalesceKeepsScript(base, target, edits, b, t);
    ScriptApplies(base, target, Coalesce(edits), b, t);
    ApplyTail(base, Derived(base, target, edits, b, t), b, |base|);
  }

  /** Coalesce a script and turn it into ranges. */
  method RangesOf(base: seq<byte>, target: seq<byte>, edits: seq<Edit>, ghost b: nat, ghost t: nat)
    returns (ranges: seq<FilePatchRange>)
    requires Script(base, target, edits, b, t)
    ensures ranges == Derived(base, target, edits, b, t)
  {
    var coalesced := CoalesceEdits(edits);
    ghost var spec := Derived(base, target, edits, b, t);
    ranges := [];
    for i := 0 to |coalesced|
      invariant |spec| == |coalesced| && ranges == spec[..i]
    {
      DerivedAt(base, target, edits, b, t, i);
      ranges := ranges + [coalesced[i].ToRange(target)];
    }
  }

  /** The ranges of the walk's edits, with the last edit closed at the lines `i` and `j`. */
  function LinePatchTo(base: seq<byte>, target: seq<byte>, i: nat, j: nat): seq<FilePatchRange>
    requires var w := WalkFrom(base, target, START);
             w.baseIndex <= i <= |Lines(base)| && w.targetIndex <= j <= |Lines(target)|
  {
    var w := WalkFrom(base, target, START);
    WalkIsScript(base, target);
    CloseKeepsScript(base, target, w, i, j);
    Derived(base, target, CloseAt(base, target, w, i, j), Offset(base, i), Offset(target, j))
  }

  lemma LinePatchToApplies(base: seq<byte>, target: seq<byte>, i: nat, j: nat)
    requires var w := WalkFrom(base, target, START);
             w.baseIndex <= i <= |Lines(base)| && w.targetIndex <= j <= |Lines(target)|
    ensures var ranges := LinePatchTo(base, target, i, j);
            && WellFormed(ranges, |base|) && RangesSeparated(ranges)
            && |ranges| <= Lcs(Lines(base), Lines(target)) + 1
            && Apply(base, ranges, |base|) == target[..Offset(target, j)] + base[Offset(base, i)..]
  {
    var w := WalkFrom(base, target, START);
    WalkIsScript(base, target);
    CloseKeepsScript(base, target, w, i, j);
    DerivedPatch(base, target, CloseAt(base, target, w, i, j), Offset(base, i), Offset(target, j));
    DerivedSeparated(base, target, CloseAt(base, target, w, i, j), Offset(base, i), Offset(target, j));
  }

  /** The ranges the source derives: closed where the walk's cursors stop. */
  function LinePatch(base: seq<byte>, target: seq<byte>): seq<FilePatchRange> {
    WalkIsScript(base, target);
    LinePatchTo(base, target, WalkFrom(base, target, START).baseIndex, WalkFrom(base, target, START).targetIndex)
  }

  /** The ranges with the last edit closed at the ends of both files. */
  function ClosedLinePatch(base: seq<byte>, target: seq<byte>): seq<FilePatchRange> {
    WalkIsScript(base, target);
    LinePatchTo(base, target, |Lines(base)|, |Lines(target)|)
  }

  /** What the server makes of the derived ranges; a range count the server's limit always admits. */
  lemma LinePatchApplies(base: seq<byte>, target: seq<byte>)
    ensures WellFormed(LinePatch(base, target), |base|) && RangesSeparated(LinePatch(base, target))
    ensures Apply(base, LinePatch(base, target), |base|) == LineResult(base, target)
    ensures LineBounded(base, target) ==> |LinePatch(base, target)| <= LINE_MAX_LINES + 1
  {
    var w := WalkFrom(base, target, START);
    WalkIsScript(base, target);
    LinePatchToApplies(base, target, w.baseIndex, w.targetIndex);
    LcsBound(Lines(base), Lines(target));
  }

  /** Closing the last edit at both ends makes the round trip hold for every pair of files. */
  lemma ClosedLinePatchApplies(base: seq<byte>, target: seq<byte>)
    ensures WellFormed(ClosedLinePatch(base, target), |base|) && RangesSeparated(ClosedLinePatch(base, target))
    ensures Apply(base, ClosedLinePatch(base, target), |base|) == target
  {
    WalkIsScript(base, target);
    LinePatchToApplies(base, target, |Lines(base)|, |Lines(target)|);
    assert target[..|target|] == target && base[|base|..] == [];
  }

  /** The two derivations differ exactly when the walk stops short of an end. */
  lemma ClosedAgreesWhenWalkCompletes(base: seq<byte>, target: seq<byte>)
    ensures WalkCompletes(base, target) ==> LinePatch(base, target) == ClosedLinePatch(base, target)
    ensures !WalkCompletes(base, target) ==> LinePatch(base, target) != ClosedLinePatch(base, target)
  {
    WalkIsScript(base, target);
    LinePatchApplies(base, target);
    ClosedLinePatchApplies(base, target);
    LineResultExact(base, target);
  }

  /**
   * `derive_line_patch_ranges`.  The source also gives up above 4096 edits; the walk records at
   * most one edit per matched line and one more, so that guard cannot fire.
   */
  method DeriveLinePatchRanges(base: seq<byte>, target: seq<byte>) returns (r: Option<seq<FilePatchRange>>)
    ensures r == if LineBounded(base, target) then Some(LinePatch(base, target)) else None
  {
    var baseSpans := SplitPatchLines(base);
    var targetSpans := SplitPatchLines(target);
    if |baseSpans| > LINE_MAX_LINES || |targetSpans| > LINE_MAX_LINES {
      return None;
    }
    if (|baseSpans| + 1) * (|targetSpans| + 1) > LINE_MAX_LCS_CELLS {
      return None;
    }
    var baseLines, targetLines := Lines(base), Lines(target);
    var lcs := FillTable(baseLines, targetLines);
    var w := Walk(base, target, baseLines, targetLines, lcs);
    var edits := CloseAt(base, target, w, w.baseIndex, w.targetIndex);
    WalkIsScript(base, target);
    LcsBound(baseLines, targetLines);
    assert |edits| <= MAX_DERIVED_RANGES;
    CloseKeepsScript(base, target, w, w.baseIndex, w.targetIndex);
    var ranges := RangesOf(base, target, edits, Offset(base, w.baseIndex), Offset(target, w.targetIndex));
    return Some(ranges);
  }

  /** The line path reproduces the target exactly when the walk consumes both files. */
  lemma LineResultExact(base: seq<byte>, target: seq<byte>)
    ensures LineResult(base, target) == target <==> WalkCompletes(base, target)
  {
    var (i, j) := WalkEnd(Lines(base), Lines(target), 0, 0);
    var b, t := Offset(base, i), Offset(target, j);
    OffsetMonotone(base, i, |Lines(base)|);
    OffsetMonotone(target, j, |Lines(target)|);
    if j == |Lines(target)| {
      assert target[..t] == target;
      assert |LineResult(base, target)| == |target| + |base| - b;
    } else {
      assert |LineResult(base, target)| == t;
    }
    if WalkCompletes(base, target) {
      assert target[..t] == target && base[b..] == [];
    }
  }

  /** A walk can only end at both ends by matching the two last lines. */
  lemma {:induction false} WalkEndNeedsLastMatch<T>(a: seq<T>, b: seq<T>, i: nat, j: nat)
    requires i <= |a| && j <= |b| && (i, j) != (|a|, |b|)
    requires WalkEnd(a, b, i, j) == (|a|, |b|)
    ensures a != [] && b != [] && a[|a| - 1] == b[|b| - 1]
    decreases |a| - i + |b| - j
  {
    if a[i] == b[j] {
      if (i + 1, j + 1) != (|a|, |b|) {
        WalkEndNeedsLastMatch(a, b, i + 1, j + 1);
      }
    } else if Lcs(a[i + 1..], b[j..]) >= Lcs(a[i..], b[j + 1..]) {
      WalkEndNeedsLastMatch(a, b, i + 1, j);
    } else {
      WalkEndNeedsLastMatch(a, b, i, j + 1);
    }
  }

  /** Whole families of edits are lost: whenever the last lines differ, or one file is empty. */
  lemma LastLineChangeIsLost(base: seq<byte>, target: seq<byte>)
    requires Lines(base) != [] || Lines(target) != []
    requires Lines(base) == [] || Lines(target) == []
          || Lines(base)[|Lines(base)| - 1] != Lines(target)[|Lines(target)| - 1]
    ensures LineResult(base, target) != target
  {
    LineResultExact(base, target);
    if WalkCompletes(base, target) {
      WalkEndNeedsLastMatch(Lines(base), Lines(target), 0, 0);
    }
  }

  /** `x` occurs in `s` as the last element and nowhere else. */
  predicate OnlyLast<T(==)>(s: seq<T>, x: T) {
    s != [] && s[|s| - 1] == x && x !in s[..|s| - 1]
  }

  lemma {:induction false} WalkReachesSharedLast<T>(a: seq<T>, b: seq<T>, x: T, i: nat, j: nat)
    requires OnlyLast(a, x) && OnlyLast(b, x) && i < |a| && j < |b|
    ensures WalkEnd(a, b, i, j) == (|a|, |b|)
    decreases |a| - i + |b| - j
  {
    var m, n := |a| - 1, |b| - 1;
    assert forall k :: 0 <= k < m ==> a[k] == a[..m][k];
    assert forall k :: 0 <= k < n ==> b[k] == b[..n][k];
    if a[i] == b[j] {
      if i < m {
        WalkReachesSharedLast(a, b, x, i + 1, j + 1);
      }
    } else if Lcs(a[i + 1..], b[j..]) >= Lcs(a[i..], b[j + 1..]) {
      if i == m {
        LcsOfSharedElement(a[i..], b[j + 1..], 0, n - j - 1);
      }
      WalkReachesSharedLast(a, b, x, i + 1, j);
    } else {
      WalkReachesSharedLast(a, b, x, i, j + 1);
    }
  }

  /** A last line shared by both files and found nowhere else in them is enough for the round trip. */
  lemma SharedLastLineSuffices(base: seq<byte>, target: seq<byte>, last: seq<byte>)
    requires OnlyLast(Lines(base), last) && OnlyLast(Lines(target), last)
    ensures LineResult(base, target) == target
  {
    WalkReachesSharedLast(Lines(base), Lines(target), last, 0, 0);
    LineResultExact(base, target);
  }

  const COUNTER_BASE: seq<byte> := [97, 10, 98, 10]
  const COUNTER_TARGET: seq<byte> := [97, 10, 99, 10, 100, 10]

  lemma CounterexampleLines()
    ensures Spans(COUNTER_BASE) == [Span(0, 2), Span(2, 4)]
    ensures Spans(COUNTER_TARGET) == [Span(0, 2), Span(2, 4), Span(4, 6)]
  {
    SplitUnique(COUNTER_BASE, [Span(0, 2), Span(2, 4)]);
    SplitUnique(COUNTER_TARGET, [Span(0, 2), Span(2, 4), Span(4, 6)]);
  }

  lemma CounterexampleWalk()
    ensures WalkFrom(COUNTER_BASE, COUNTER_TARGET, START) == WalkState([], 2, 1, 1, 1)
  {
    CounterexampleLines();
    var base, target := COUNTER_BASE, COUNTER_TARGET;
    var a, b := Lines(base), Lines(target);
    assert a[0] == b[0] == [97, 10] && a[1] == [98, 10] && b[1] == [99, 10] && b[2] == [100, 10];
    assert a[1..] == [[98, 10]] && b[2..] == [[100, 10]];
    assert Lcs(a[2..], b[1..]) == 0 && Lcs(a[1..], b[2..]) == 0;
    var one, two := WalkState([], 1, 1, 1, 1), WalkState([], 2, 1, 1, 1);
    assert WalkStep(base, target, START) == one;
    assert WalkStep(base, target, one) == two;
    assert WalkFrom(base, target, one) == WalkFrom(base, target, two) == two;
  }

  lemma CounterexampleOffsets()
    ensures Offset(COUNTER_BASE, 1) == 2 && Offset(COUNTER_BASE, 2) == 4 && Offset(COUNTER_TARGET, 1) == 2
    ensures |Lines(COUNTER_BASE)| == 2 && |Lines(COUNTER_TARGET)| == 3
  {
    CounterexampleLines();
  }

  lemma CoalesceOne(e: Edit)
    requires !e.IsEmpty()
    ensures Coalesce([e]) == [e]
  {
    assert [e][..0] == [];
  }

  lemma CounterexampleRanges()
    ensures LinePatch(COUNTER_BASE, COUNTER_TARGET) == [FilePatchRange(2, 2, [])]
  {
    var base, target, w, e := COUNTER_BASE, COUNTER_TARGET, WalkState([], 2, 1, 1, 1), Edit(2, 4, 2, 2);
    CounterexampleOffsets();
    CounterexampleWalk();
    WalkIsScript(base, target);
    CloseKeepsScript(base, target, w, 2, 1);
    assert CloseAt(base, target, w, 2, 1) == [e];
    CoalesceOne(e);
    DerivedAt(base, target, [e], 4, 2, 0);
  }

  lemma CounterexampleApplies()
    ensures Apply(COUNTER_BASE, [FilePatchRange(2, 2, [])], 4) == [97, 10]
  {
    ApplyPush(COUNTER_BASE, [], FilePatchRange(2, 2, []), 4);
    assert [] + [FilePatchRange(2, 2, [])] == [FilePatchRange(2, 2, [])];
  }

  /** `a\nb\n` to `a\nc\nd\n`: one range that deletes `b\n` and inserts nothing, so the server keeps `a\n`. */
  lemma LinePathCounterexample()
    ensures LineBounded(COUNTER_BASE, COUNTER_TARGET)
    ensures LinePatch(COUNTER_BASE, COUNTER_TARGET) == [FilePatchRange(2, 2, [])]
    ensures Apply(COUNTER_BASE, [FilePatchRange(2, 2, [])], 4) == [97, 10] != COUNTER_TARGET
  {
    CounterexampleOffsets();
    CounterexampleRanges();
    CounterexampleApplies();
  }
}
