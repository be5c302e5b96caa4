/** The byte path for equal-length files, the whole derivation, and the choice of what to send. */
module PatchChoice {
  import opened Base
  import opened PatchApply
  import opened PatchScript
  import opened PatchDerive

  /** Number of equal leading bytes, counted on from `i`. */
  function CommonPrefix(a: seq<byte>, b: seq<byte>, i: nat := 0): (r: nat)
    requires i <= |a| && i <= |b|
    ensures i <= r <= |a| && r <= |b| && a[i..r] == b[i..r]
    ensures r < |a| && r < |b| ==> a[r] != b[r]
    decreases |a| - i
  {
    if i < |a| && i < |b| && a[i] == b[i] then
      var r := CommonPrefix(a, b, i + 1);
      assert a[i..r] == [a[i]] + a[i + 1..r] && b[i..r] == [b[i]] + b[i + 1..r];
      r
    else i
  }

  predicate SameFromEnd(a: seq<byte>, b: seq<byte>, k: nat) {
    k < |a| && k < |b| && a[|a| - 1 - k] == b[|b| - 1 - k]
  }

  /** Number of equal trailing bytes, counted on from `i`. */
  function CommonSuffix(a: seq<byte>, b: seq<byte>, i: nat := 0): (r: nat)
    requires i <= |a| && i <= |b|
    ensures i <= r <= |a| && r <= |b|
    ensures forall k: nat :: i <= k < r ==> SameFromEnd(a, b, k)
    ensures !SameFromEnd(a, b, r)
    decreases |a| - i
  {
    if SameFromEnd(a, b, i) then CommonSuffix(a, b, i + 1) else i
  }

  lemma {:induction false} SuffixesEqual(a: seq<byte>, b: seq<byte>, r: nat)
    requires r <= |a| && r <= |b| && forall k: nat :: k < r ==> SameFromEnd(a, b, k)
    ensures a[|a| - r..] == b[|b| - r..]
  {
    if r > 0 {
      SuffixesEqual(a, b, r - 1);
      assert SameFromEnd(a, b, r - 1);
      assert a[|a| - r..] == [a[|a| - r]] + a[|a| - r + 1..] && b[|b| - r..] == [b[|b| - r]] + b[|b| - r + 1..];
    }
  }

  /** Counting from the end is not disturbed by setting a prefix aside. */
  lemma SameBehindPrefix(base: seq<byte>, target: seq<byte>, prefix: nat, k: nat)
    requires prefix <= |base| && prefix <= |target|
    ensures SameFromEnd(base[prefix..], target[prefix..], k) <==>
              SameFromEnd(base, target, k) && prefix + k < |base| && prefix + k < |target|
  {}

  /** What the files share at their ends, once the shared prefix has been set aside. */
  lemma SharedEnds(base: seq<byte>, target: seq<byte>, prefix: nat, suffix: nat)
    requires prefix <= |base| && prefix <= |target| && base[0..prefix] == target[0..prefix]
    requires var b, t := base[prefix..], target[prefix..];
             suffix <= |b| && suffix <= |t| && b[|b| - suffix..] == t[|t| - suffix..]
    ensures base[..prefix] == target[..prefix]
    ensures base[|base| - suffix..] == target[|target| - suffix..]
    ensures target == base[..prefix] + target[prefix..|target| - suffix] + base[|base| - suffix..]
  {
    var b, t := base[prefix..], target[prefix..];
    assert base[|base| - suffix..] == b[|b| - suffix..];
    assert target[|target| - suffix..] == t[|t| - suffix..];
    assert base[..prefix] == base[0..prefix] && target[..prefix] == target[0..prefix];
    assert target == target[..prefix] + target[prefix..|target| - suffix] + target[|target| - suffix..];
  }

  /** `prefix` leading and `suffix` trailing bytes can be kept, so one replacement between them is a patch. */
  predicate EndsShared(base: seq<byte>, target: seq<byte>, prefix: nat, suffix: nat) {
    && prefix + suffix <= |base| && prefix + suffix <= |target|
    && base[..prefix] == target[..prefix] && base[|base| - suffix..] == target[|target| - suffix..]
  }

  ghost predicate KeepsMost(base: seq<byte>, target: seq<byte>, kept: nat) {
    forall p: nat, s: nat :: EndsShared(base, target, p, s) ==> p + s <= kept
  }

  lemma PrefixStops(base: seq<byte>, target: seq<byte>, k: nat, p: nat)
    requires k < |base| && k < |target|
    requires p <= |base| && p <= |target| && base[..p] == target[..p]
    ensures base[k] != target[k] ==> p <= k
  {
    assert p > k ==> base[..p][k] == base[k] && target[..p][k] == target[k];
  }

  lemma SuffixStops(base: seq<byte>, target: seq<byte>, k: nat, s: nat)
    requires k < |base| && k < |target|
    requires s <= |base| && s <= |target| && base[|base| - s..] == target[|target| - s..]
    ensures base[|base| - 1 - k] != target[|target| - 1 - k] ==> s <= k
  {
    assert s > k ==> base[|base| - s..][s - 1 - k] == base[|base| - 1 - k];
    assert s > k ==> target[|target| - s..][s - 1 - k] == target[|target| - 1 - k];
  }

  /** Taking the longest prefix first costs nothing: no other pair of ends keeps more bytes. */
  lemma GreedyEndsLongest(base: seq<byte>, target: seq<byte>, prefix: nat, suffix: nat)
    requires EndsShared(base, target, prefix, suffix)
    requires prefix < |base| && prefix < |target| ==> base[prefix] != target[prefix]
    requires prefix + suffix < |base| && prefix + suffix < |target| ==> !SameFromEnd(base, target, suffix)
    ensures KeepsMost(base, target, prefix + suffix)
  {
    forall p: nat, s: nat | EndsShared(base, target, p, s) ensures p + s <= prefix + suffix {
      if prefix < |base| && prefix < |target| {
        PrefixStops(base, target, prefix, p);
      }
      if prefix + suffix < |base| && prefix + suffix < |target| {
        SuffixStops(base, target, suffix, s);
      }
    }
  }

  /** The files agree on one byte more than the coalescing gap, from `k` on. */
  predicate SameWindow(base: seq<byte>, target: seq<byte>, k: nat) {
    && k + COALESCE_GAP_BYTES < |base| && k + COALESCE_GAP_BYTES < |target|
    && base[k..k + COALESCE_GAP_BYTES + 1] == target[k..k + COALESCE_GAP_BYTES + 1]
  }

  lemma DifferenceBreaksWindow(base: seq<byte>, target: seq<byte>, k: nat, j: nat)
    requires k <= j <= k + COALESCE_GAP_BYTES && j < |base| && j < |target| && base[j] != target[j]
    ensures !SameWindow(base, target, k)
  {}

  /** Differing bytes at both ends, and nowhere inside an unchanged stretch longer than the gap. */
  predicate Tight(base: seq<byte>, target: seq<byte>, start: nat, end: nat) {
    && start < end <= |base| && end <= |target|
    && base[start] != target[start] && base[end - 1] != target[end - 1]
    && forall k: nat :: start <= k && k + COALESCE_GAP_BYTES < end ==> !SameWindow(base, target, k)
  }

  predicate Diagonal(e: Edit) { e.baseStart == e.targetStart && e.baseEnd == e.targetEnd }

  predicate AllTight(base: seq<byte>, target: seq<byte>, edits: seq<Edit>) {
    forall i :: 0 <= i < |edits| ==> Diagonal(edits[i]) && Tight(base, target, edits[i].baseStart, edits[i].baseEnd)
  }

  /** A run: every byte differs. */
  predicate IsRun(base: seq<byte>, target: seq<byte>, e: Edit) {
    && Diagonal(e) && e.baseStart < e.baseEnd <= |base| && e.baseEnd <= |target|
    && forall j :: e.baseStart <= j < e.baseEnd ==> base[j] != target[j]
  }

  predicate AllRuns(base: seq<byte>, target: seq<byte>, edits: seq<Edit>) {
    forall i :: 0 <= i < |edits| ==> IsRun(base, target, edits[i])
  }

  /** Collects the maximal runs of differing bytes between `lo` and `hi`. */
  method FindRuns(base: seq<byte>, target: seq<byte>, lo: nat, hi: nat) returns (runs: seq<Edit>)
    requires lo <= hi <= |base| && hi <= |target| && base[..lo] == target[..lo]
    ensures Script(base, target, runs, hi, hi) && AllRuns(base, target, runs)
  {
    runs := [];
    var index := lo;
    while index < hi
      invariant lo <= index <= hi
      invariant Script(base, target, runs, index, index) && AllRuns(base, target, runs)
    {
      if base[index] == target[index] {
        ScriptExtend(base, target, runs, index, index, index + 1, index + 1);
        index := index + 1;
      } else {
        var start := index;
        index := index + 1;
        while index < hi && base[index] != target[index]
          invariant start < index <= hi
          invariant forall j :: start <= j < index ==> base[j] != target[j]
        {
          index := index + 1;
        }
        ScriptPush(base, target, runs, Edit(start, index, start, index));
        runs := runs + [Edit(start, index, start, index)];
      }
    }
  }

  /** A run glued to a tight stretch across a gap no longer than allowed. */
  lemma TightJoin(base: seq<byte>, target: seq<byte>, start: nat, mid: nat, e: Edit)
    requires Tight(base, target, start, mid) && IsRun(base, target, e)
    requires mid <= e.baseStart <= mid + COALESCE_GAP_BYTES
    ensures Tight(base, target, start, e.baseEnd)
  {
    forall k: nat | start <= k && k + COALESCE_GAP_BYTES < e.baseEnd ensures !SameWindow(base, target, k) {
      if k + COALESCE_GAP_BYTES >= e.baseStart {
        DifferenceBreaksWindow(base, target, k, Max(k, e.baseStart));
      } else if k + COALESCE_GAP_BYTES >= mid {
        DifferenceBreaksWindow(base, target, k, mid - 1);
      }
    }
  }

  lemma RunIsTight(base: seq<byte>, target: seq<byte>, e: Edit)
    requires IsRun(base, target, e)
    ensures Tight(base, target, e.baseStart, e.baseEnd)
  {
    forall k: nat | e.baseStart <= k && k + COALESCE_GAP_BYTES < e.baseEnd ensures !SameWindow(base, target, k) {
      DifferenceBreaksWindow(base, target, k, k);
    }
  }

  lemma CoalesceStepTight(base: seq<byte>, target: seq<byte>, done: seq<Edit>, e: Edit)
    requires AllTight(base, target, done) && IsRun(base, target, e)
    requires done != [] ==> done[|done| - 1].baseEnd <= e.baseStart
    ensures AllTight(base, target, CoalesceStep(done, e))
  {
    RunIsTight(base, target, e);
    if done != [] && e.baseStart <= done[|done| - 1].baseEnd + COALESCE_GAP_BYTES {
      var p := done[|done| - 1];
      TightJoin(base, target, p.baseStart, p.baseEnd, e);
    }
  }

  /** Coalesced runs stay diagonal and tight. */
  lemma {:induction false} CoalesceTight(base: seq<byte>, target: seq<byte>, edits: seq<Edit>, b: nat, t: nat)
    requires Script(base, target, edits, b, t) && AllRuns(base, target, edits)
    ensures AllTight(base, target, Coalesce(edits))
  {
    if edits != [] {
      var e, front := edits[|edits| - 1], edits[..|edits| - 1];
      CoalesceTight(base, target, front, e.baseStart, e.targetStart);
      CoalesceKeepsScript(base, target, front, e.baseStart, e.targetStart);
      if Coalesce(front) != [] {
        ScriptBounds(base, target, Coalesce(front), e.baseStart, e.targetStart, |Coalesce(front)| - 1);
      }
      CoalesceStepTight(base, target, Coalesce(front), e);
    }
  }

  /** Length-preserving, copied from the target, and tight. */
  predicate IsByteRange(base: seq<byte>, target: seq<byte>, range: FilePatchRange) {
    && Tight(base, target, range.offset, range.End())
    && range.replacement == target[range.offset..range.End()]
  }

  predicate Outside(ranges: seq<FilePatchRange>, k: nat) {
    forall i :: 0 <= i < |ranges| ==> !(ranges[i].offset <= k < ranges[i].End())
  }

  /** The stretches in front of, between and behind the ranges are the same bytes in both files. */
  predicate GapsUnchanged(base: seq<byte>, target: seq<byte>, ranges: seq<FilePatchRange>)
    requires |base| == |target|
  {
    forall k: nat :: k < |base| && Outside(ranges, k) ==> base[k] == target[k]
  }

  /** Outside its edits a diagonal script changes nothing. */
  lemma {:induction false} ScriptUnchanged(base: seq<byte>, target: seq<byte>, edits: seq<Edit>, b: nat, k: nat)
    requires Script(base, target, edits, b, b) && AllTight(base, target, edits) && k < b
    requires forall i :: 0 <= i < |edits| ==> !(edits[i].baseStart <= k < edits[i].baseEnd)
    ensures base[k] == target[k]
  {
    if edits == [] {
      assert base[..b][k] == target[..b][k];
    } else {
      var e := edits[|edits| - 1];
      if k >= e.baseEnd {
        assert base[e.baseEnd..b][k - e.baseEnd] == target[e.baseEnd..b][k - e.baseEnd];
      } else {
        ScriptUnchanged(base, target, edits[..|edits| - 1], e.baseStart, k);
      }
    }
  }

  /** The ranges of equal-length files. */
  predicate ByteRanges(base: seq<byte>, target: seq<byte>, ranges: seq<FilePatchRange>) {
    && |base| == |target|
    && (forall i :: 0 <= i < |ranges| ==> IsByteRange(base, target, ranges[i]))
    && RangesSeparated(ranges) && GapsUnchanged(base, target, ranges)
  }

  lemma DerivedIsByteRange(base: seq<byte>, target: seq<byte>, edits: seq<Edit>, n: nat, i: nat)
    requires Script(base, target, edits, n, n) && AllRuns(base, target, edits)
    requires i < |Derived(base, target, edits, n, n)|
    ensures IsByteRange(base, target, Derived(base, target, edits, n, n)[i])
  {
    CoalesceTight(base, target, edits, n, n);
    DerivedAt(base, target, edits, n, n, i);
    var e := Coalesce(edits)[i];
    assert Diagonal(e) && Tight(base, target, e.baseStart, e.baseEnd);
  }

  lemma DerivedUnchanged(base: seq<byte>, target: seq<byte>, edits: seq<Edit>, n: nat, k: nat)
    requires Script(base, target, edits, n, n) && AllRuns(base, target, edits)
    requires k < n && Outside(Derived(base, target, edits, n, n), k)
    ensures base[k] == target[k]
  {
    CoalesceKeepsScript(base, target, edits, n, n);
    CoalesceTight(base, target, edits, n, n);
    forall i | 0 <= i < |Coalesce(edits)| ensures !(Coalesce(edits)[i].baseStart <= k < Coalesce(edits)[i].baseEnd) {
      DerivedAt(base, target, edits, n, n, i);
      assert !(Derived(base, target, edits, n, n)[i].offset <= k < Derived(base, target, edits, n, n)[i].End());
    }
    ScriptUnchanged(base, target, Coalesce(edits), n, k);
  }

  lemma DerivedByteRanges(base: seq<byte>, target: seq<byte>, edits: seq<Edit>)
    requires |base| == |target| && Script(base, target, edits, |base|, |base|) && AllRuns(base, target, edits)
    ensures ByteRanges(base, target, Derived(base, target, edits, |base|, |base|))
  {
    var n, ranges := |base|, Derived(base, target, edits, |base|, |base|);
    DerivedSeparated(base, target, edits, n, n);
    forall i | 0 <= i < |ranges| ensures IsByteRange(base, target, ranges[i]) {
      DerivedIsByteRange(base, target, edits, n, i);
    }
    forall k: nat | k < n && Outside(ranges, k) ensures base[k] == target[k] {
      DerivedUnchanged(base, target, edits, n, k);
    }
  }

  // ---------- how many byte ranges there are ----------

  /** A differing byte with no other within the coalescing gap in front of it. */
  predicate StartsEdit(base: seq<byte>, target: seq<byte>, k: nat) {
    && k < |base| && k < |target| && base[k] != target[k]
    && forall j :: 0 <= j < k && k - j <= COALESCE_GAP_BYTES + 1 ==> base[j] == target[j]
  }

  /** How many edits start among the first `k` bytes. */
  function EditCount(base: seq<byte>, target: seq<byte>, k: nat): nat {
    if k == 0 then 0 else EditCount(base, target, k - 1) + if StartsEdit(base, target, k - 1) then 1 else 0
  }

  /** The stretch in front of a range, longer than the gap, is outside all ranges. */
  lemma OutsideBeforeRange(ranges: seq<FilePatchRange>, end: nat, i: nat, j: nat)
    requires WellFormed(ranges, end) && RangesSeparated(ranges) && i < |ranges|
    requires j < ranges[i].offset && ranges[i].offset - j <= COALESCE_GAP_BYTES + 1
    ensures Outside(ranges, j)
  {
    forall m | 0 <= m < |ranges| ensures !(ranges[m].offset <= j < ranges[m].End()) {
      if m < i {
        assert ranges[i - 1].End() + COALESCE_GAP_BYTES < ranges[i - 1 + 1].offset;
        assert m < i - 1 ==> ranges[m].End() <= ranges[i - 1].offset;
      } else if m > i {
        assert ranges[i].End() <= ranges[m].offset;
      }
    }
  }

  lemma RangeStartsEdit(base: seq<byte>, target: seq<byte>, ranges: seq<FilePatchRange>, i: nat)
    requires ByteRanges(base, target, ranges) && WellFormed(ranges, |base|) && i < |ranges|
    ensures StartsEdit(base, target, ranges[i].offset)
  {
    var k := ranges[i].offset;
    assert IsByteRange(base, target, ranges[i]);
    forall j | 0 <= j < k && k - j <= COALESCE_GAP_BYTES + 1 ensures base[j] == target[j] {
      OutsideBeforeRange(ranges, |base|, i, j);
    }
  }

  /** Inside a range no edit starts: there would be an unchanged stretch longer than the gap in front of it. */
  lemma InsideRangeNoStart(base: seq<byte>, target: seq<byte>, start: nat, end: nat, k: nat)
    requires |base| == |target| && Tight(base, target, start, end) && start < k < end
    ensures !StartsEdit(base, target, k)
  {
    var gap := COALESCE_GAP_BYTES + 1;
    if k - start > gap {
      assert !SameWindow(base, target, k - gap);
      var x, y := base[k - gap..k], target[k - gap..k];
      var i :| 0 <= i < gap && x[i] != y[i];
      assert base[k - gap + i] != target[k - gap + i];
    } else {
      assert base[start] != target[start];
    }
  }

  function Offsets(ranges: seq<FilePatchRange>): seq<nat> {
    seq(|ranges|, i requires 0 <= i < |ranges| => ranges[i].offset)
  }

  predicate Increasing(q: seq<nat>) { forall i, j :: 0 <= i < j < |q| ==> q[i] < q[j] }

  lemma EditStartsRange(base: seq<byte>, target: seq<byte>, ranges: seq<FilePatchRange>, k: nat)
    requires ByteRanges(base, target, ranges) && StartsEdit(base, target, k)
    ensures k in Offsets(ranges)
  {
    assert !Outside(ranges, k);
    var i :| 0 <= i < |ranges| && ranges[i].offset <= k < ranges[i].End();
    assert IsByteRange(base, target, ranges[i]);
    if ranges[i].offset < k {
      InsideRangeNoStart(base, target, ranges[i].offset, ranges[i].End(), k);
    }
    assert Offsets(ranges)[i] == k;
  }

  /** The numbers are the places where edits start. */
  ghost predicate Marks(base: seq<byte>, target: seq<byte>, q: seq<nat>) {
    forall k: nat :: k in q <==> StartsEdit(base, target, k)
  }

  lemma OffsetStartsEdit(base: seq<byte>, target: seq<byte>, ranges: seq<FilePatchRange>, k: nat)
    requires ByteRanges(base, target, ranges) && WellFormed(ranges, |base|) && k in Offsets(ranges)
    ensures StartsEdit(base, target, k)
  {
    var i :| 0 <= i < |ranges| && Offsets(ranges)[i] == k;
    RangeStartsEdit(base, target, ranges, i);
  }

  lemma OffsetsIncreasing(base: seq<byte>, target: seq<byte>, ranges: seq<FilePatchRange>)
    requires ByteRanges(base, target, ranges) && WellFormed(ranges, |base|)
    ensures Increasing(Offsets(ranges))
  {
    forall i, j | 0 <= i < j < |ranges| ensures ranges[i].offset < ranges[j].offset {
      assert IsByteRange(base, target, ranges[i]) && ranges[i].End() <= ranges[j].offset;
    }
  }

  /** The offsets of the byte ranges are the places where edits start. */
  lemma OffsetsAreStarts(base: seq<byte>, target: seq<byte>, ranges: seq<FilePatchRange>)
    requires ByteRanges(base, target, ranges) && WellFormed(ranges, |base|)
    ensures Marks(base, target, Offsets(ranges))
  {
    forall k: nat ensures k in Offsets(ranges) <==> StartsEdit(base, target, k) {
      if k in Offsets(ranges) {
        OffsetStartsEdit(base, target, ranges, k);
      } else if StartsEdit(base, target, k) {
        EditStartsRange(base, target, ranges, k);
      }
    }
  }

  /** The first `n` numbers of the sequence are those below `k`. */
  predicate SplitsAt(q: seq<nat>, n: nat, k: nat) {
    n <= |q| && (forall i :: 0 <= i < n ==> q[i] < k) && forall i :: n <= i < |q| ==> q[i] >= k
  }

  lemma SplitsNext(q: seq<nat>, n: nat, k: nat)
    requires Increasing(q) && SplitsAt(q, n, k)
    ensures SplitsAt(q, if k in q then n + 1 else n, k + 1)
  {
    if k in q {
      var i :| 0 <= i < |q| && q[i] == k;
      assert forall j :: n < j < |q| ==> q[n] < q[j];
    }
  }

  lemma {:induction false} StartsCounted(base: seq<byte>, target: seq<byte>, q: seq<nat>, k: nat)
    requires Increasing(q) && Marks(base, target, q)
    ensures SplitsAt(q, EditCount(base, target, k), k)
  {
    if k > 0 {
      StartsCounted(base, target, q, k - 1);
      SplitsNext(q, EditCount(base, target, k - 1), k - 1);
      assert k - 1 in q <==> StartsEdit(base, target, k - 1);
    }
  }

  /** The number of byte ranges, from the two files alone. */
  lemma RangeCountExact(base: seq<byte>, target: seq<byte>, ranges: seq<FilePatchRange>)
    requires ByteRanges(base, target, ranges) && WellFormed(ranges, |base|)
    ensures |ranges| == EditCount(base, target, |base|)
  {
    OffsetsIncreasing(base, target, ranges);
    OffsetsAreStarts(base, target, ranges);
    StartsCounted(base, target, Offsets(ranges), |base|);
    OffsetsBelow(base, target, ranges);
    SplitsAtAll(Offsets(ranges), EditCount(base, target, |base|), |base|);
  }

  lemma OffsetsBelow(base: seq<byte>, target: seq<byte>, ranges: seq<FilePatchRange>)
    requires ByteRanges(base, target, ranges)
    ensures forall i :: 0 <= i < |ranges| ==> Offsets(ranges)[i] < |base|
  {
    forall i | 0 <= i < |ranges| ensures ranges[i].offset < |base| {
      assert IsByteRange(base, target, ranges[i]);
    }
  }

  lemma SplitsAtAll(q: seq<nat>, n: nat, k: nat)
    requires SplitsAt(q, n, k) && forall i :: 0 <= i < |q| ==> q[i] < k
    ensures n == |q|
  {
    if q != [] {
      assert q[|q| - 1] < k;
    }
  }

  // ---------- the whole derivation ----------

  /** Whether the derived ranges turn the base into the target. */
  predicate RoundTrips(base: seq<byte>, target: seq<byte>) {
    |base| == |target| || !LineBounded(base, target) || WalkCompletes(base, target)
  }

  /** The equal-length branch. */
  method DeriveByteRanges(base: seq<byte>, target: seq<byte>, prefix: nat, end: nat) returns (r: seq<FilePatchRange>)
    requires |base| == |target| && prefix <= end <= |base|
    requires base[..prefix] == target[..prefix] && base[end..] == target[end..]
    ensures WellFormed(r, |base|) && Apply(base, r, |base|) == target
    ensures ByteRanges(base, target, r)
  {
    var runs := FindRuns(base, target, prefix, end);
    ScriptExtend(base, target, runs, end, end, |base|, |base|);
    r := RangesOf(base, target, runs, |base|, |base|);
    DerivedPatch(base, target, runs, |base|, |base|);
    DerivedByteRanges(base, target, runs);
    assert target[..|base|] + base[|base|..] == target;
  }

  /** The lengths of the shared prefix and of the shared suffix behind it. */
  method FindEnds(base: seq<byte>, target: seq<byte>) returns (prefix: nat, suffix: nat)
    ensures EndsShared(base, target, prefix, suffix)
    ensures target == base[..prefix] + target[prefix..|target| - suffix] + base[|base| - suffix..]
    ensures KeepsMost(base, target, prefix + suffix)
  {
    prefix := CommonPrefix(base, target);
    suffix := CommonSuffix(base[prefix..], target[prefix..]);
    SuffixesEqual(base[prefix..], target[prefix..], suffix);
    SharedEnds(base, target, prefix, suffix);
    SameBehindPrefix(base, target, prefix, suffix);
    GreedyEndsLongest(base, target, prefix, suffix);
  }

  /** The fallback for length-changing edits: one range over everything that is not shared. */
  method DeriveContiguous(base: seq<byte>, target: seq<byte>, prefix: nat, suffix: nat) returns (r: seq<FilePatchRange>)
    requires prefix + suffix <= |base| && prefix + suffix <= |target|
    requires target == base[..prefix] + target[prefix..|target| - suffix] + base[|base| - suffix..]
    ensures |r| == 1 && WellFormed(r, |base|) && Apply(base, r, |base|) == target
  {
    var range := FilePatchRange(prefix, |base| - suffix - prefix, target[prefix..|target| - suffix]);
    ApplyPush(base, [], range, |base|);
    assert range.End() == |base| - suffix && base[range.End()..|base|] == base[|base| - suffix..];
    assert Apply(base, [], prefix) == base[..prefix];
    r := [range];
    assert [] + [range] == r;
  }

  /** What is known of the derived ranges, path by path. */
  ghost predicate IsDerived(base: seq<byte>, target: seq<byte>, r: seq<FilePatchRange>) {
    && WellFormed(r, |base|)
    && (|base| == |target| ==> ByteRanges(base, target, r))
    && (|base| != |target| && LineBounded(base, target) ==> r == LinePatch(base, target))
    && (|base| != |target| && !LineBounded(base, target) ==> |r| == 1)
  }

  /** `derive_file_patch_ranges`. */
  method DeriveFilePatchRanges(base: seq<byte>, target: seq<byte>) returns (r: seq<FilePatchRange>)
    ensures IsDerived(base, target, r)
    ensures Apply(base, r, |base|) == target <==> RoundTrips(base, target)
    ensures |base| != |target| ==> |r| <= LINE_MAX_LINES + 1
  {
    var prefix, suffix := FindEnds(base, target);
    if |base| - suffix - prefix != |target| - suffix - prefix {
      var lines := DeriveLinePatchRanges(base, target);
      if lines.Some? {
        LinePatchApplies(base, target);
        LineResultExact(base, target);
        return lines.value;
      }
      r := DeriveContiguous(base, target, prefix, suffix);
    } else {
      r := DeriveByteRanges(base, target, prefix, |base| - suffix);
    }
  }

  const PATCH_FIXED_OVERHEAD: nat := 128
  const RANGES_FIXED_OVERHEAD: nat := 160
  const RANGE_OVERHEAD: nat := 24

  datatype CachedFilePatch =
    | FullPut
    | Unchanged
    | Patch(prefixLen: nat, suffixLen: nat, replacement: seq<byte>)
    | Ranges(ranges: seq<FilePatchRange>)

  /**
   * The file the server ends up with when it is sent `p` instead of the whole target; `None` where it
   * refuses.  Every result is bounded, and a patch is applied to a base read under the same bound.
   */
  function Outcome(base: seq<byte>, target: seq<byte>, p: CachedFilePatch): Option<seq<byte>> {
    match p
    case FullPut => if |target| <= FILE_MAX_BYTES then Some(target) else None
    case Unchanged => Some(base)
    case Patch(prefixLen, suffixLen, replacement) =>
      if |base| > FILE_MAX_BYTES || prefixLen + suffixLen > |base| then None
      else if prefixLen + suffixLen + |replacement| > FILE_MAX_BYTES then None
      else Some(base[..prefixLen] + replacement + base[|base| - suffixLen..])
    case Ranges(ranges) =>
      if |base| <= FILE_MAX_BYTES && Acceptable(base, ranges) then Some(Apply(base, ranges, |base|)) else None
  }

  /** Bytes the client expects to spend, in its own accounting. */
  function Cost(target: seq<byte>, p: CachedFilePatch): nat {
    match p
    case FullPut => |target|
    case Unchanged => 0
    case Patch(_, _, replacement) => |replacement| + PATCH_FIXED_OVERHEAD
    case Ranges(ranges) => RANGES_FIXED_OVERHEAD + |ranges| * RANGE_OVERHEAD + ReplacementTotal(ranges)
  }

  method SumReplacements(ranges: seq<FilePatchRange>) returns (total: nat)
    ensures total == ReplacementTotal(ranges)
  {
    total := 0;
    for i := 0 to |ranges|
      invariant total == ReplacementTotal(ranges[..i])
    {
      assert ranges[..i + 1][..i] == ranges[..i];
      total := total + |ranges[i].replacement|;
    }
    assert ranges[..|ranges|] == ranges;
  }

  /** Whether sending the ranges is worth it: more than one, and cheaper than the whole file. */
  predicate RangesPay(target: seq<byte>, ranges: seq<FilePatchRange>) {
    |ranges| > 1 && Cost(target, Ranges(ranges)) < |target|
  }

  /** The number of ranges is within the server's limit, which only files of equal length can exceed. */
  predicate FewEdits(base: seq<byte>, target: seq<byte>) {
    |base| == |target| ==> EditCount(base, target, |base|) <= MAX_FILE_PATCH_RANGES
  }

  /** The limits the server puts on whatever it is sent, in terms of the two files. */
  predicate WithinLimits(base: seq<byte>, target: seq<byte>, p: CachedFilePatch) {
    && (!p.Unchanged? ==> |target| <= FILE_MAX_BYTES)
    && (p.Patch? || p.Ranges? ==> |base| <= FILE_MAX_BYTES)
    && (p.Ranges? ==> FewEdits(base, target))
  }

  /** The decision between the representations, once the ranges are derived. */
  method Select(base: seq<byte>, target: seq<byte>, ranges: seq<FilePatchRange>, allowRanges: bool)
    returns (p: CachedFilePatch)
    requires base != target
    ensures !p.Unchanged?
    ensures p.Ranges? <==> allowRanges && RangesPay(target, ranges)
    ensures p.Ranges? ==> p.ranges == ranges
    ensures p.Patch? ==> Cost(target, p) < |target|
    ensures p.Patch? || p.FullPut? ==> (Outcome(base, target, p) == Some(target) <==> WithinLimits(base, target, p))
    ensures p.Patch? ==> KeepsMost(base, target, p.prefixLen + p.suffixLen)
    ensures p.FullPut? ==> KeepsMost(base, target, PATCH_FIXED_OVERHEAD)
  {
    var replaced := SumReplacements(ranges);
    if && allowRanges && |ranges| > 1 && replaced < |target|
       && RANGES_FIXED_OVERHEAD + |ranges| * RANGE_OVERHEAD + replaced < |target| {
      return Ranges(ranges);
    }
    var prefix, suffix := FindEnds(base, target);
    var replacement := target[prefix..|target| - suffix];
    if |replacement| + PATCH_FIXED_OVERHEAD < |target| {
      return Patch(prefix, suffix, replacement);
    }
    return FullPut;
  }

  /** Ranges arrive exactly when the server's limits admit them and they describe the target. */
  lemma RangesOutcome(base: seq<byte>, target: seq<byte>, ranges: seq<FilePatchRange>)
    requires IsDerived(base, target, ranges) && ranges != []
    requires |base| != |target| ==> |ranges| <= MAX_FILE_PATCH_RANGES
    ensures Outcome(base, target, Ranges(ranges)) == Some(target) <==>
              WithinLimits(base, target, Ranges(ranges)) && Apply(base, ranges, |base|) == target
  {
    if |base| == |target| {
      RangeCountExact(base, target, ranges);
    }
  }

  /** Ranges are sent exactly when they are allowed and the derived ones pay. */
  ghost predicate SendsDerived(base: seq<byte>, target: seq<byte>, allowRanges: bool, p: CachedFilePatch) {
    exists r :: IsDerived(base, target, r) &&
                (if allowRanges && RangesPay(target, r) then p == Ranges(r) else !p.Ranges?)
  }

  /**
   * The decision of `cached_file_patch_with_ranges` for the cached base of the requested file, which
   * `asp patch` takes for any two files.  The client checks neither the number of edits nor the walk, so
   * these are the two ways ranges go wrong.
   */
  method ChoosePatch(base: seq<byte>, target: seq<byte>, allowRanges: bool) returns (p: CachedFilePatch)
    ensures Outcome(base, target, p) == Some(target) <==>
              WithinLimits(base, target, p) && (p.Ranges? ==> RoundTrips(base, target))
    ensures base != target ==> SendsDerived(base, target, allowRanges, p)
    ensures p.Unchanged? <==> base == target
    ensures p.Ranges? ==> allowRanges && RangesPay(target, p.ranges)
    ensures p.Patch? || p.Ranges? ==> Cost(target, p) < |target|
    ensures p.FullPut? ==> KeepsMost(base, target, PATCH_FIXED_OVERHEAD)
  {
    if base == target {
      return Unchanged;
    }
    var ranges := DeriveFilePatchRanges(base, target);
    p := Select(base, target, ranges, allowRanges);
    if p.Ranges? {
      RangesOutcome(base, target, ranges);
    }
    assert SendsDerived(base, target, allowRanges, p) by {
      assert IsDerived(base, target, ranges);
    }
  }
}
