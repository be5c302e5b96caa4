/**
 * Edits that the client really sends as ranges and that do not arrive: too many ranges for the server,
 * and a last line that the line path loses.
 */
module PatchFailures {
  import opened Base
  import opened LineSplit
  import opened PatchApply
  import opened PatchScript
  import opened PatchLcs
  import opened PatchLines
  import opened PatchDerive
  import opened PatchChoice

  // ---------- more ranges than the server takes ----------

  /** Distance between the edits: one byte more than the coalescing gap lies between two of them. */
  const STRIDE: nat := COALESCE_GAP_BYTES + 2

  /** Files of `n` strides that differ in the first byte of each. */
  predicate Scattered(base: seq<byte>, target: seq<byte>, n: nat) {
    |base| == |target| == STRIDE * n && forall k: nat :: k < |base| ==> (base[k] != target[k] <==> k % STRIDE == 0)
  }

  lemma QuietBetween(base: seq<byte>, target: seq<byte>, n: nat, start: nat, k: nat)
    requires Scattered(base, target, n) && start % STRIDE == 0 && start < k < start + STRIDE && k < |base|
    ensures base[k] == target[k]
  {
    assert k % STRIDE == k - start;
  }

  /** Behind an edit the files agree for longer than the gap. */
  lemma WindowBehindEdit(base: seq<byte>, target: seq<byte>, n: nat, start: nat)
    requires Scattered(base, target, n) && start % STRIDE == 0 && start < |base|
    ensures SameWindow(base, target, start + 1)
  {
    var x, y := base[start + 1..start + STRIDE], target[start + 1..start + STRIDE];
    forall i | 0 <= i < |x| ensures x[i] == y[i] {
      QuietBetween(base, target, n, start, start + 1 + i);
    }
  }

  /** A byte range of such files is one byte long: any longer one would hold an unchanged stretch. */
  lemma RangeIsOneByte(base: seq<byte>, target: seq<byte>, n: nat, range: FilePatchRange)
    requires Scattered(base, target, n) && IsByteRange(base, target, range)
    ensures range.offset % STRIDE == 0 && range.removeLen == |range.replacement| == 1
  {
    var start, end := range.offset, range.End();
    WindowBehindEdit(base, target, n, start);
    assert end <= start + STRIDE - 1;
    if start < end - 1 {
      QuietBetween(base, target, n, start, end - 1);
    }
  }

  lemma {:induction false} AtLeastIndex(q: seq<nat>, k: nat)
    requires Increasing(q) && k < |q|
    ensures q[k] >= k
  {
    if k > 0 {
      AtLeastIndex(q, k - 1);
    }
  }

  lemma {:induction false} AtIndex(q: seq<nat>, n: nat, k: nat)
    requires Increasing(q) && k < n && forall j: nat :: j < n ==> j in q
    ensures k < |q| && q[k] == k
  {
    if k > 0 {
      AtIndex(q, n, k - 1);
    }
    assert k in q;
    var i :| 0 <= i < |q| && q[i] == k;
    assert k > 0 ==> q[k - 1] < q[i];
    AtLeastIndex(q, k);
  }

  /** An increasing sequence that holds exactly the numbers below `n` has `n` elements. */
  lemma Enumerates(q: seq<nat>, n: nat)
    requires Increasing(q) && (forall i :: 0 <= i < |q| ==> q[i] < n) && forall j: nat :: j < n ==> j in q
    ensures |q| == n
  {
    if n > 0 {
      AtIndex(q, n, n - 1);
    }
    if q != [] {
      AtLeastIndex(q, |q| - 1);
    }
  }

  lemma Quotients(x: nat, y: nat)
    requires x % STRIDE == 0 && y % STRIDE == 0 && x < y
    ensures x / STRIDE < y / STRIDE
  {}

  lemma StrideTimes(j: nat, n: nat)
    requires j < n
    ensures STRIDE * j < STRIDE * n && STRIDE * j % STRIDE == 0 && STRIDE * j / STRIDE == j
  {}

  /** The same for the multiples of the stride. */
  lemma EnumeratesStrides(o: seq<nat>, n: nat)
    requires Increasing(o) && (forall i :: 0 <= i < |o| ==> o[i] % STRIDE == 0 && o[i] < STRIDE * n)
    requires forall j: nat :: j < n ==> STRIDE * j in o
    ensures |o| == n
  {
    var q: seq<nat> := seq(|o|, i requires 0 <= i < |o| => o[i] / STRIDE);
    forall i, j | 0 <= i < j < |q| ensures q[i] < q[j] {
      Quotients(o[i], o[j]);
    }
    forall j: nat | j < n ensures j in q {
      assert STRIDE * j in o;
      var i :| 0 <= i < |o| && o[i] == STRIDE * j;
      StrideTimes(j, n);
      assert q[i] == j;
    }
    Enumerates(q, n);
  }

  predicate OneByte(range: FilePatchRange) { range.removeLen == |range.replacement| == 1 }

  predicate AllOneByte(ranges: seq<FilePatchRange>) { forall i :: 0 <= i < |ranges| ==> OneByte(ranges[i]) }

  /** A differing byte is in a range, so a one-byte range starts at it. */
  lemma DifferenceIsOffset(base: seq<byte>, target: seq<byte>, ranges: seq<FilePatchRange>, k: nat)
    requires ByteRanges(base, target, ranges) && AllOneByte(ranges) && k < |base| && base[k] != target[k]
    ensures k in Offsets(ranges)
  {
    assert !Outside(ranges, k);
    var i :| 0 <= i < |ranges| && ranges[i].offset <= k < ranges[i].End();
    assert OneByte(ranges[i]) && Offsets(ranges)[i] == k;
  }

  lemma OffsetsIncrease(base: seq<byte>, ranges: seq<FilePatchRange>)
    requires WellFormed(ranges, |base|) && AllOneByte(ranges)
    ensures Increasing(Offsets(ranges))
  {
    forall i, j | 0 <= i < j < |ranges| ensures ranges[i].offset < ranges[j].offset {
      assert OneByte(ranges[i]) && ranges[i].End() <= ranges[j].offset;
    }
  }

  /** The ranges are the edits, one by one. */
  lemma OneRangePerEdit(base: seq<byte>, target: seq<byte>, n: nat, ranges: seq<FilePatchRange>)
    requires Scattered(base, target, n) && ByteRanges(base, target, ranges) && WellFormed(ranges, |base|)
    ensures |ranges| == n && AllOneByte(ranges)
  {
    forall i | 0 <= i < |ranges| ensures OneByte(ranges[i]) && ranges[i].offset % STRIDE == 0 {
      RangeIsOneByte(base, target, n, ranges[i]);
    }
    OffsetsIncrease(base, ranges);
    forall j: nat | j < n ensures STRIDE * j in Offsets(ranges) {
      StrideTimes(j, n);
      DifferenceIsOffset(base, target, ranges, STRIDE * j);
    }
    EnumeratesStrides(Offsets(ranges), n);
  }

  lemma {:induction false} OneByteTotal(ranges: seq<FilePatchRange>)
    requires AllOneByte(ranges)
    ensures ReplacementTotal(ranges) == |ranges|
  {
    if ranges != [] {
      OneByteTotal(ranges[..|ranges| - 1]);
      assert OneByte(ranges[|ranges| - 1]);
    }
  }

  /** A one-byte range costs 25 bytes and stands for 34, so the ranges pay. */
  lemma OneByteRangesPay(target: seq<byte>, r: seq<FilePatchRange>)
    requires |target| == STRIDE * |r| && |r| > MAX_FILE_PATCH_RANGES && AllOneByte(r)
    ensures RangesPay(target, r)
  {
    OneByteTotal(r);
  }

  lemma FirstByteDiffers(base: seq<byte>, target: seq<byte>, n: nat)
    requires Scattered(base, target, n) && n > 0
    ensures base != target
  {
    StrideTimes(0, n);
    assert base[0] != target[0];
  }

  lemma ScatteredIsSent(base: seq<byte>, target: seq<byte>, n: nat, p: CachedFilePatch)
    requires Scattered(base, target, n) && n > MAX_FILE_PATCH_RANGES && SendsDerived(base, target, true, p)
    ensures p.Ranges? && |p.ranges| == n && EditCount(base, target, |base|) == n
  {
    var r :| IsDerived(base, target, r) && (if RangesPay(target, r) then p == Ranges(r) else !p.Ranges?);
    OneRangePerEdit(base, target, n, r);
    RangeCountExact(base, target, r);
    OneByteRangesPay(target, r);
  }

  /**
   * Scattered one-byte edits of equal-length files: the client sends them as ranges, because they are far
   * cheaper than the file, and the server refuses them, although they would give the target.
   */
  method ScatteredEditsAreRefused(base: seq<byte>, target: seq<byte>, n: nat) returns (p: CachedFilePatch)
    requires Scattered(base, target, n) && n > MAX_FILE_PATCH_RANGES
    ensures SendsDerived(base, target, true, p) && p.Ranges? && |p.ranges| == n
    ensures Cost(target, p) < |target| && RoundTrips(base, target) && !FewEdits(base, target)
    ensures Outcome(base, target, p) == None
  {
    FirstByteDiffers(base, target, n);
    p := ChoosePatch(base, target, true);
    ScatteredIsSent(base, target, n, p);
  }

  /** The smallest such pair, 139298 bytes long, far below the server's file limit. */
  method SmallestRefusedEdit() returns (base: seq<byte>, target: seq<byte>, p: CachedFilePatch)
    ensures |base| == |target| == 139298 && RoundTrips(base, target)
    ensures SendsDerived(base, target, true, p) && p.Ranges? && |p.ranges| == MAX_FILE_PATCH_RANGES + 1
    ensures Outcome(base, target, p) == None
  {
    base := seq(STRIDE * 4097, _ => 0);
    target := seq(STRIDE * 4097, k => if k % STRIDE == 0 then 1 else 0);
    p := ScatteredEditsAreRefused(base, target, 4097);
  }

  // ---------- a sent patch that loses the end of the file ----------

  /** Two lines against four, sharing the base's first with the target's second. */
  predicate SharesOne<T(==)>(a: seq<T>, b: seq<T>) {
    && |a| == 2 && |b| == 4 && a[0] == b[1] && a[0] != b[0]
    && a[1] !in b
  }

  lemma SharesOneSteps<T>(a: seq<T>, b: seq<T>)
    requires SharesOne(a, b)
    ensures NextCursors(a, b, 0, 0) == (0, 1)
    ensures a[1] != b[2] && NextCursors(a, b, 1, 2) == (2, 2)
  {
    LcsOfDisjoint(a[1..], b[0..]);
    LcsOfSharedElement(a[0..], b[1..], 0, 0);
    LcsOfDisjoint(a[1..], b[3..]);
  }

  /** One line, at least 205 bytes long so that sending ranges pays. */
  predicate LongLine(m: seq<byte>) {
    205 <= |m| <= FILE_MAX_BYTES - 6 && m[|m| - 1] == NEWLINE && NEWLINE !in m[..|m| - 1]
  }

  /** A long line and a short one. */
  function LossyBase(m: seq<byte>): seq<byte> { m + [98, 10] }

  /** A line put in front, the short line replaced by two. */
  function LossyTarget(m: seq<byte>): seq<byte> { [120, 10] + m + [99, 10, 100, 10] }

  lemma LossyBaseLines(m: seq<byte>)
    requires LongLine(m)
    ensures Spans(LossyBase(m)) == [Span(0, |m|), Span(|m|, |m| + 2)]
    ensures Lines(LossyBase(m)) == [m, [98, 10]]
  {
    var n, base := |m|, LossyBase(m);
    assert base[0..n - 1] == m[..n - 1] && base[n..n + 1] == [98];
    SplitUnique(base, [Span(0, n), Span(n, n + 2)]);
    assert base[0..n] == m && base[n..n + 2] == [98, 10];
  }

  lemma LossyTargetSpans(m: seq<byte>)
    requires LongLine(m)
    ensures Spans(LossyTarget(m)) ==
              [Span(0, 2), Span(2, |m| + 2), Span(|m| + 2, |m| + 4), Span(|m| + 4, |m| + 6)]
  {
    var n, target := |m|, LossyTarget(m);
    var spans := [Span(0, 2), Span(2, n + 2), Span(n + 2, n + 4), Span(n + 4, n + 6)];
    assert target[0..1] == [120] && target[2..n + 1] == m[..n - 1];
    assert target[n + 2..n + 3] == [99] && target[n + 4..n + 5] == [100];
    assert IsLine(target, spans, 0) && IsLine(target, spans, 1);
    assert IsLine(target, spans, 2) && IsLine(target, spans, 3);
    SplitUnique(target, spans);
  }

  lemma LossyTargetLines(m: seq<byte>)
    requires LongLine(m)
    ensures Lines(LossyTarget(m)) == [[120, 10], m, [99, 10], [100, 10]]
  {
    var n, target := |m|, LossyTarget(m);
    LossyTargetSpans(m);
    assert target[0..2] == [120, 10] && target[2..n + 2] == m;
    assert target[n + 2..n + 4] == [99, 10] && target[n + 4..n + 6] == [100, 10];
  }

  lemma LossyOffsets(m: seq<byte>)
    requires LongLine(m)
    ensures var base, target := LossyBase(m), LossyTarget(m);
            && Offset(base, 0) == 0 && Offset(base, 1) == |m| && Offset(base, 2) == |m| + 2
            && Offset(target, 0) == 0 && Offset(target, 1) == 2 && Offset(target, 2) == |m| + 2
  {
    LossyBaseLines(m);
    LossyTargetSpans(m);
  }

  /** The walk inserts the new first line, matches the long one, and stops when the base is exhausted. */
  lemma LossyWalk(m: seq<byte>)
    requires LongLine(m)
    ensures WalkFrom(LossyBase(m), LossyTarget(m), START) == WalkState([Edit(0, 0, 0, 2)], 2, 2, 1, 2)
  {
    var base, target := LossyBase(m), LossyTarget(m);
    LossyBaseLines(m);
    LossyTargetLines(m);
    LossyOffsets(m);
    var a, b := Lines(base), Lines(target);
    assert SharesOne(a, b) by {
      assert |a[0]| > |b[0]| && a[1] != b[0] && a[1] != b[1] && a[1] != b[2] && a[1] != b[3];
    }
    SharesOneSteps(a, b);
    var one, two := WalkState([], 0, 1, 0, 0), WalkState([Edit(0, 0, 0, 2)], 1, 2, 1, 2);
    var three := WalkState([Edit(0, 0, 0, 2)], 2, 2, 1, 2);
    assert WalkStep(base, target, START) == one;
    assert WalkStep(base, target, one) == two;
    assert WalkStep(base, target, two) == three;
    assert WalkFrom(base, target, two) == WalkFrom(base, target, three) == three;
    assert WalkFrom(base, target, START) == WalkFrom(base, target, one) == WalkFrom(base, target, two);
  }

  const NEW_LINE_RANGE := FilePatchRange(0, 0, [120, 10])

  lemma LossyResult(m: seq<byte>)
    requires LongLine(m)
    ensures LineBounded(LossyBase(m), LossyTarget(m)) && !WalkCompletes(LossyBase(m), LossyTarget(m))
    ensures LineResult(LossyBase(m), LossyTarget(m)) == [120, 10] + m
  {
    var base, target := LossyBase(m), LossyTarget(m);
    LossyBaseLines(m);
    LossyTargetLines(m);
    LossyOffsets(m);
    LossyWalk(m);
    WalkIsScript(base, target);
    assert target[..|m| + 2] == [120, 10] + m && base[|m| + 2..] == [];
  }

  lemma LossyRanges(m: seq<byte>)
    requires LongLine(m)
    ensures LinePatch(LossyBase(m), LossyTarget(m)) == [NEW_LINE_RANGE, FilePatchRange(|m|, 2, [])]
  {
    var base, target, w := LossyBase(m), LossyTarget(m), WalkState([Edit(0, 0, 0, 2)], 2, 2, 1, 2);
    var edits := [Edit(0, 0, 0, 2), Edit(|m|, |m| + 2, |m| + 2, |m| + 2)];
    LossyOffsets(m);
    LossyWalk(m);
    WalkIsScript(base, target);
    CloseKeepsScript(base, target, w, 2, 2);
    assert CloseAt(base, target, w, 2, 2) == edits;
    LossyCoalesce(|m|);
    DerivedAt(base, target, edits, |m| + 2, |m| + 2, 0);
    DerivedAt(base, target, edits, |m| + 2, |m| + 2, 1);
    assert target[0..2] == [120, 10] && target[|m| + 2..|m| + 2] == [];
  }

  /** The two edits are too far apart to be merged. */
  lemma LossyCoalesce(n: nat)
    requires n > COALESCE_GAP_BYTES
    ensures var edits := [Edit(0, 0, 0, 2), Edit(n, n + 2, n + 2, n + 2)]; Coalesce(edits) == edits
  {
    var one, two := Edit(0, 0, 0, 2), Edit(n, n + 2, n + 2, n + 2);
    assert [one, two][..1] == [one] && [one][..0] == [];
    assert Coalesce([one]) == [one];
  }

  lemma LossyPays(m: seq<byte>)
    requires LongLine(m)
    ensures RangesPay(LossyTarget(m), [NEW_LINE_RANGE, FilePatchRange(|m|, 2, [])])
  {
    var first, second := NEW_LINE_RANGE, FilePatchRange(|m|, 2, []);
    assert [first, second][..1] == [first] && [first][..0] == [];
    assert ReplacementTotal([]) == 0 && ReplacementTotal([first]) == 2;
    assert ReplacementTotal([first, second]) == 2;
    assert Cost(LossyTarget(m), Ranges([first, second])) == 210;
  }

  lemma LossyIsSent(m: seq<byte>, p: CachedFilePatch)
    requires LongLine(m) && SendsDerived(LossyBase(m), LossyTarget(m), true, p)
    ensures p == Ranges([NEW_LINE_RANGE, FilePatchRange(|m|, 2, [])])
  {
    var base, target := LossyBase(m), LossyTarget(m);
    var r :| IsDerived(base, target, r) && (if RangesPay(target, r) then p == Ranges(r) else !p.Ranges?);
    LossyResult(m);
    LossyRanges(m);
    LossyPays(m);
  }

  lemma LossyOutcome(m: seq<byte>, ranges: seq<FilePatchRange>)
    requires LongLine(m) && |ranges| == 2 && WellFormed(ranges, |LossyBase(m)|)
    requires Apply(LossyBase(m), ranges, |LossyBase(m)|) == [120, 10] + m
    ensures Outcome(LossyBase(m), LossyTarget(m), Ranges(ranges)) == Some([120, 10] + m)
  {
    assert |[120, 10] + m| <= FILE_MAX_BYTES;
  }

  lemma LossyApplies(m: seq<byte>)
    requires LongLine(m)
    ensures var base, ranges := LossyBase(m), [NEW_LINE_RANGE, FilePatchRange(|m|, 2, [])];
            WellFormed(ranges, |base|) && Apply(base, ranges, |base|) == [120, 10] + m
  {
    LossyResult(m);
    LossyRanges(m);
    LinePatchApplies(LossyBase(m), LossyTarget(m));
  }

  /**
   * For every long line `m`: the client sends these two ranges, the server accepts them, and the file it
   * stores ends after `m`, without the two lines that were to replace the last one.
   */
  method SentPatchLosesText(m: seq<byte>) returns (p: CachedFilePatch)
    requires LongLine(m)
    ensures SendsDerived(LossyBase(m), LossyTarget(m), true, p)
    ensures p == Ranges([NEW_LINE_RANGE, FilePatchRange(|m|, 2, [])])
    ensures Outcome(LossyBase(m), LossyTarget(m), p) == Some([120, 10] + m)
    ensures [120, 10] + m + [99, 10, 100, 10] == LossyTarget(m) != [120, 10] + m
  {
    p := ChoosePatch(LossyBase(m), LossyTarget(m), true);
    LossyIsSent(m, p);
    LossyApplies(m);
    LossyOutcome(m, p.ranges);
    assert |[120, 10] + m| < |LossyTarget(m)|;
  }
}
