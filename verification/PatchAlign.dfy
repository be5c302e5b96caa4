/**
 * What the walk through the table finds, said without the walk: a longest alignment of the two files'
 * lines whose target lines come first, and which of the base's equal lines it takes.
 */
module PatchAlign {
  import opened Base
  import opened LineSplit
  import opened PatchScript
  import opened PatchApply
  import opened PatchLcs
  import opened PatchLines
  import opened PatchDerive

  /** A line of the base matched with a line of the target. */
  datatype Pair = Pair(i: nat, j: nat)

  predicate Matches<T(==)>(a: seq<T>, b: seq<T>, i: nat, j: nat, pair: Pair) {
    i <= pair.i < |a| && j <= pair.j < |b| && a[pair.i] == b[pair.j]
  }

  /** Equal elements at strictly increasing positions, none before `(i, j)`. */
  predicate IsAlignment<T(==)>(a: seq<T>, b: seq<T>, i: nat, j: nat, pairs: seq<Pair>) {
    && (forall k :: 0 <= k < |pairs| ==>
          i <= pairs[k].i < |a| && j <= pairs[k].j < |b| && a[pairs[k].i] == b[pairs[k].j])
    && (forall k, m :: 0 <= k < m < |pairs| ==> pairs[k].i < pairs[m].i && pairs[k].j < pairs[m].j)
  }

  /** The length of a longest common subsequence behind `(i, j)`. */
  function LcsAt<T(==)>(a: seq<T>, b: seq<T>, i: nat, j: nat): nat
    requires i <= |a| && j <= |b|
  {
    Lcs(a[i..], b[j..])
  }

  lemma LcsAtStep<T>(a: seq<T>, b: seq<T>, i: nat, j: nat)
    requires i < |a| && j < |b|
    ensures a[i] == b[j] ==> LcsAt(a, b, i, j) == 1 + LcsAt(a, b, i + 1, j + 1)
    ensures a[i] != b[j] ==> LcsAt(a, b, i, j) == Max(LcsAt(a, b, i + 1, j), LcsAt(a, b, i, j + 1))
  {
    assert a[i..][1..] == a[i + 1..] && b[j..][1..] == b[j + 1..];
  }

  lemma LcsAtEnd<T>(a: seq<T>, b: seq<T>, i: nat, j: nat)
    requires i <= |a| && j <= |b| && (i == |a| || j == |b|)
    ensures LcsAt(a, b, i, j) == 0
  {}

  /** No alignment is longer. */
  lemma {:induction false} AlignmentBound<T>(a: seq<T>, b: seq<T>, i: nat, j: nat, pairs: seq<Pair>)
    requires i <= |a| && j <= |b| && IsAlignment(a, b, i, j, pairs)
    ensures |pairs| <= LcsAt(a, b, i, j)
    decreases |a| - i + |b| - j
  {
    if pairs != [] {
      var head := pairs[0];
      LcsAtStep(a, b, i, j);
      if a[i] == b[j] {
        AlignmentBound(a, b, i + 1, j + 1, pairs[1..]);
      } else if head.i > i {
        AlignmentBound(a, b, i + 1, j, pairs);
      } else {
        AlignmentBound(a, b, i, j + 1, pairs);
      }
    }
  }

  /** The pairs the walk matches from `(i, j)` on. */
  function WalkPairs<T(==)>(a: seq<T>, b: seq<T>, i: nat, j: nat): seq<Pair>
    requires i <= |a| && j <= |b|
    decreases |a| - i + |b| - j
  {
    if i == |a| || j == |b| then []
    else
      var next := NextCursors(a, b, i, j);
      (if a[i] == b[j] then [Pair(i, j)] else []) + WalkPairs(a, b, next.0, next.1)
  }

  lemma {:induction false} WalkPairsAlign<T>(a: seq<T>, b: seq<T>, i: nat, j: nat)
    requires i <= |a| && j <= |b|
    ensures IsAlignment(a, b, i, j, WalkPairs(a, b, i, j))
    decreases |a| - i + |b| - j
  {
    if i < |a| && j < |b| {
      var next := NextCursors(a, b, i, j);
      WalkPairsAlign(a, b, next.0, next.1);
    }
  }

  lemma {:induction false} WalkPairsLongest<T>(a: seq<T>, b: seq<T>, i: nat, j: nat)
    requires i <= |a| && j <= |b|
    ensures |WalkPairs(a, b, i, j)| == LcsAt(a, b, i, j)
    decreases |a| - i + |b| - j
  {
    if i < |a| && j < |b| {
      var next := NextCursors(a, b, i, j);
      WalkPairsLongest(a, b, next.0, next.1);
      LcsAtStep(a, b, i, j);
    }
  }

  /** The walk's pairs and its end, one match further on. */
  lemma StepAtMatch<T>(a: seq<T>, b: seq<T>, i: nat, j: nat)
    requires i < |a| && j < |b| && a[i] == b[j]
    ensures WalkPairs(a, b, i, j) == [Pair(i, j)] + WalkPairs(a, b, i + 1, j + 1)
    ensures WalkEnd(a, b, i, j) == WalkEnd(a, b, i + 1, j + 1)
    ensures LcsAt(a, b, i, j) == 1 + LcsAt(a, b, i + 1, j + 1)
  {
    LcsAtStep(a, b, i, j);
  }

  /** The same where the lines differ: the base line goes if nothing is lost by it, else the target line. */
  lemma StepAtGap<T>(a: seq<T>, b: seq<T>, i: nat, j: nat) returns (dropBase: bool, i': nat, j': nat)
    requires i < |a| && j < |b| && a[i] != b[j]
    ensures (i', j') == NextCursors(a, b, i, j) == if dropBase then (i + 1, j) else (i, j + 1)
    ensures WalkPairs(a, b, i, j) == WalkPairs(a, b, i', j')
    ensures WalkEnd(a, b, i, j) == WalkEnd(a, b, i', j')
    ensures LcsAt(a, b, i', j') == LcsAt(a, b, i, j)
    ensures !dropBase ==> LcsAt(a, b, i + 1, j) < LcsAt(a, b, i, j) && j' < |b|
  {
    if j + 1 == |b| {
      LcsAtEnd(a, b, i, j + 1);
    }
    LcsAtStep(a, b, i, j);
    dropBase := NextCursors(a, b, i, j) == (i + 1, j);
    i', j' := if dropBase then i + 1 else i, if dropBase then j else j + 1;
  }

  // ---------- the target lines come first ----------

  function Targets(pairs: seq<Pair>): seq<nat> {
    seq(|pairs|, k requires 0 <= k < |pairs| => pairs[k].j)
  }

  /** In dictionary order `x` does not come after `y`. */
  predicate NotAfter(x: seq<nat>, y: seq<nat>) {
    x == [] || (y != [] && (x[0] < y[0] || (x[0] == y[0] && NotAfter(x[1..], y[1..]))))
  }

  lemma {:induction false} NotAfterSelf(x: seq<nat>)
    ensures NotAfter(x, x)
  {
    if x != [] {
      NotAfterSelf(x[1..]);
    }
  }

  lemma {:induction false} NotAfterAt(x: seq<nat>, y: seq<nat>, k: nat)
    requires k < |x| && k < |y| && x[..k] == y[..k] && x[k] < y[k]
    ensures NotAfter(x, y)
  {
    if k > 0 {
      assert x[0] == x[..k][0] == y[..k][0] == y[0];
      assert x[1..][..k - 1] == x[..k][1..] && y[1..][..k - 1] == y[..k][1..];
      NotAfterAt(x[1..], y[1..], k - 1);
    }
  }

  /** The first `k` of `x`, then the rest of `y`, is an alignment if they fit together. */
  lemma Splices<T>(a: seq<T>, b: seq<T>, i: nat, j: nat, x: seq<Pair>, k: nat, y: seq<Pair>, m: nat)
    requires IsAlignment(a, b, i, j, x) && k <= |x| && IsAlignment(a, b, i, j, y) && m <= |y|
    requires k > 0 && m < |y| ==> x[k - 1].i < y[m].i && x[k - 1].j < y[m].j
    ensures IsAlignment(a, b, i, j, x[..k] + y[m..])
  {
    var z := x[..k] + y[m..];
    forall p, q | 0 <= p < q < |z| ensures z[p].i < z[q].i && z[p].j < z[q].j {
      if p < k <= q {
        assert p < k - 1 ==> x[p].i < x[k - 1].i && x[p].j < x[k - 1].j;
        assert m < m + (q - k) ==> y[m].i < y[m + (q - k)].i && y[m].j < y[m + (q - k)].j;
      }
    }
  }

  lemma SameTargets(x: seq<Pair>, y: seq<Pair>, k: nat)
    requires k <= |x| == |y| && forall l :: 0 <= l < k ==> x[l].j == y[l].j
    ensures NotAfter(Targets(y[..k] + x[k..]), Targets(x))
  {
    assert Targets(y[..k] + x[k..]) == Targets(x);
    NotAfterSelf(Targets(x));
  }

  lemma EarlierTarget(x: seq<Pair>, y: seq<Pair>, k: nat)
    requires k < |x| == |y| && y[k].j < x[k].j && forall l :: 0 <= l < k ==> x[l].j == y[l].j
    ensures NotAfter(Targets(y), Targets(x))
  {
    assert Targets(y)[..k] == Targets(x)[..k];
    NotAfterAt(Targets(y), Targets(x), k);
  }

  /**
   * Two longest alignments, `x` ahead of `y` in the base as far as their targets agree.  Either `y`'s targets
   * do not come after `x`'s, or `x`'s targets can be had without the base line `i`.
   */
  lemma {:induction false} Exchange<T>(a: seq<T>, b: seq<T>, i: nat, j: nat, x: seq<Pair>, y: seq<Pair>, k: nat)
    returns (z: seq<Pair>)
    requires i < |a| && j <= |b| && IsAlignment(a, b, i, j, x) && IsAlignment(a, b, i + 1, j, y)
    requires |x| == |y| == LcsAt(a, b, i, j) && k <= |x|
    requires forall l :: 0 <= l < k ==> x[l].i < y[l].i && x[l].j == y[l].j
    requires k == 0 && x != [] ==> x[0].i < y[0].i
    ensures IsAlignment(a, b, i + 1, j, z) && |z| == |x| && NotAfter(Targets(z), Targets(x))
    decreases |x| - k
  {
    if k == |x| {
      assert Targets(y) == Targets(x);
      NotAfterSelf(Targets(x));
      z := y;
    } else if x[k].i >= y[k].i {
      z := y[..k] + x[k..];
      ExchangeTail(a, b, i, j, x, y, k);
      SameTargets(x, y, k);
    } else if x[k].j < y[k].j {
      Splices(a, b, i, j, x, k + 1, y, k);
      AlignmentBound(a, b, i, j, x[..k + 1] + y[k..]);
      z := y;
    } else if x[k].j > y[k].j {
      EarlierTarget(x, y, k);
      z := y;
    } else {
      z := Exchange(a, b, i, j, x, y, k + 1);
    }
  }

  lemma ExchangeTail<T>(a: seq<T>, b: seq<T>, i: nat, j: nat, x: seq<Pair>, y: seq<Pair>, k: nat)
    requires IsAlignment(a, b, i, j, x) && IsAlignment(a, b, i + 1, j, y) && 0 < k < |x| == |y|
    requires x[k].i >= y[k].i && x[k - 1].j == y[k - 1].j
    ensures IsAlignment(a, b, i + 1, j, y[..k] + x[k..])
  {
    assert y[k - 1].i < y[k].i <= x[k].i && y[k - 1].j < x[k].j;
    Splices(a, b, i, j, y, k, x, k);
    var z := y[..k] + x[k..];
    forall l | 0 <= l < |z| ensures z[l].i >= i + 1 {
      if l >= k {
        assert l > k ==> x[k].i < x[l].i;
      }
    }
  }

  lemma {:induction false} NotAfterTransitive(x: seq<nat>, y: seq<nat>, z: seq<nat>)
    requires NotAfter(x, y) && NotAfter(y, z)
    ensures NotAfter(x, z)
  {
    if x != [] && x[0] == y[0] == z[0] {
      NotAfterTransitive(x[1..], y[1..], z[1..]);
    }
  }

  /** Behind its first pair, an alignment lies strictly behind that pair. */
  lemma AlignmentTail<T>(a: seq<T>, b: seq<T>, i: nat, j: nat, pairs: seq<Pair>)
    requires IsAlignment(a, b, i, j, pairs) && pairs != []
    ensures IsAlignment(a, b, pairs[0].i + 1, pairs[0].j + 1, pairs[1..])
    ensures Targets(pairs)[1..] == Targets(pairs[1..])
  {
    forall k | 0 < k < |pairs| ensures pairs[0].i < pairs[k].i && pairs[0].j < pairs[k].j {}
  }

  /** An alignment whose first pair lies behind `(i', j')` lies there altogether. */
  lemma AlignmentBehind<T>(a: seq<T>, b: seq<T>, i: nat, j: nat, pairs: seq<Pair>, i': nat, j': nat)
    requires IsAlignment(a, b, i, j, pairs)
    requires pairs != [] ==> i' <= pairs[0].i && j' <= pairs[0].j
    ensures IsAlignment(a, b, i', j', pairs)
  {
    forall k | 0 < k < |pairs| ensures i' <= pairs[k].i && j' <= pairs[k].j {
      assert pairs[0].i < pairs[k].i && pairs[0].j < pairs[k].j;
    }
  }

  /** Of all longest alignments the walk finds one whose target lines come first in dictionary order. */
  lemma {:induction false} TargetsComeFirst<T>(a: seq<T>, b: seq<T>, i: nat, j: nat, pairs: seq<Pair>)
    requires i <= |a| && j <= |b|
    requires IsAlignment(a, b, i, j, pairs) && |pairs| == LcsAt(a, b, i, j)
    ensures NotAfter(Targets(WalkPairs(a, b, i, j)), Targets(pairs))
    decreases |a| - i + |b| - j, 1
  {
    WalkPairsLongest(a, b, i, j);
    if pairs != [] {
      var head := pairs[0];
      if a[i] == b[j] {
        TargetsComeFirstAtMatch(a, b, i, j, pairs);
      } else {
        var dropBase, i', j' := StepAtGap(a, b, i, j);
        if !dropBase {
          FirstTargetIsDropped(a, b, i, j, pairs);
        }
        if dropBase && head.i == i {
          TargetsComeFirstByExchange(a, b, i, j, pairs);
        } else {
          AlignmentBehind(a, b, i, j, pairs, i', j');
          TargetsComeFirst(a, b, i', j', pairs);
        }
      }
    }
  }

  lemma NotAfterBehind(head: Pair, tail: seq<Pair>, pairs: seq<Pair>)
    requires pairs != [] && head.j <= pairs[0].j
    requires head.j == pairs[0].j ==> NotAfter(Targets(tail), Targets(pairs[1..]))
    ensures NotAfter(Targets([head] + tail), Targets(pairs))
  {
    assert Targets([head] + tail)[1..] == Targets(tail) && Targets(pairs)[1..] == Targets(pairs[1..]);
  }

  lemma TargetsComeFirstAtMatch<T>(a: seq<T>, b: seq<T>, i: nat, j: nat, pairs: seq<Pair>)
    requires i < |a| && j < |b| && a[i] == b[j]
    requires IsAlignment(a, b, i, j, pairs) && |pairs| == LcsAt(a, b, i, j)
    ensures NotAfter(Targets(WalkPairs(a, b, i, j)), Targets(pairs))
    decreases |a| - i + |b| - j, 0
  {
    StepAtMatch(a, b, i, j);
    var tail := WalkPairs(a, b, i + 1, j + 1);
    AlignmentTail(a, b, i, j, pairs);
    if pairs[0].j == j {
      AlignmentBehind(a, b, pairs[0].i + 1, j + 1, pairs[1..], i + 1, j + 1);
      TargetsComeFirst(a, b, i + 1, j + 1, pairs[1..]);
    }
    NotAfterBehind(Pair(i, j), tail, pairs);
  }

  /** Where the walk passes over a base line that an alignment uses, another without it is as good. */
  lemma TargetsComeFirstByExchange<T>(a: seq<T>, b: seq<T>, i: nat, j: nat, pairs: seq<Pair>)
    requires i < |a| && j < |b| && IsAlignment(a, b, i, j, pairs) && |pairs| == LcsAt(a, b, i, j)
    requires WalkPairs(a, b, i, j) == WalkPairs(a, b, i + 1, j) && LcsAt(a, b, i + 1, j) == LcsAt(a, b, i, j)
    requires pairs != [] && pairs[0].i == i
    ensures NotAfter(Targets(WalkPairs(a, b, i, j)), Targets(pairs))
    decreases |a| - i + |b| - j, 0
  {
    var walk := WalkPairs(a, b, i + 1, j);
    WalkPairsAlign(a, b, i + 1, j);
    WalkPairsLongest(a, b, i + 1, j);
    assert walk[0].i > i;
    var other := Exchange(a, b, i, j, pairs, walk, 0);
    TargetsComeFirst(a, b, i + 1, j, other);
    NotAfterTransitive(Targets(walk), Targets(other), Targets(pairs));
  }

  /** Where the walk passes over a target line, no longest alignment uses that line. */
  lemma FirstTargetIsDropped<T>(a: seq<T>, b: seq<T>, i: nat, j: nat, pairs: seq<Pair>)
    requires i < |a| && j < |b| && a[i] != b[j] && LcsAt(a, b, i + 1, j) < LcsAt(a, b, i, j)
    requires IsAlignment(a, b, i, j, pairs) && |pairs| == LcsAt(a, b, i, j) && pairs != []
    ensures pairs[0].j > j
  {
    if pairs[0].j == j {
      AlignmentBehind(a, b, i, j, pairs, i + 1, j);
      AlignmentBound(a, b, i + 1, j, pairs);
    }
  }

  // ---------- the base lines it takes ----------

  lemma AlignmentWiden<T>(a: seq<T>, b: seq<T>, i: nat, j: nat, pairs: seq<Pair>, i': nat, j': nat)
    requires IsAlignment(a, b, i, j, pairs) && i' <= i && j' <= j
    ensures IsAlignment(a, b, i', j', pairs)
  {
    assert pairs != [] ==> i <= pairs[0].i && j <= pairs[0].j;
    AlignmentBehind(a, b, i, j, pairs, i', j');
  }

  lemma LcsAtShrinks<T>(a: seq<T>, b: seq<T>, i: nat, j: nat, i': nat)
    requires i <= i' <= |a| && j <= |b|
    ensures LcsAt(a, b, i', j) <= LcsAt(a, b, i, j)
  {
    var pairs := WalkPairs(a, b, i', j);
    WalkPairsAlign(a, b, i', j);
    WalkPairsLongest(a, b, i', j);
    AlignmentWiden(a, b, i', j, pairs, i, j);
    AlignmentBound(a, b, i, j, pairs);
  }

  lemma TargetShrinks<T>(a: seq<T>, b: seq<T>, i: nat, j: nat)
    requires i <= |a| && j < |b|
    ensures LcsAt(a, b, i, j + 1) <= LcsAt(a, b, i, j)
  {
    var pairs := WalkPairs(a, b, i, j + 1);
    WalkPairsAlign(a, b, i, j + 1);
    WalkPairsLongest(a, b, i, j + 1);
    AlignmentWiden(a, b, i, j + 1, pairs, i, j);
    AlignmentBound(a, b, i, j, pairs);
  }

  /** `p` is the last base line from which a longest alignment still starts. */
  predicate IsLastStart<T(==)>(a: seq<T>, b: seq<T>, i: nat, j: nat, p: nat)
    requires i <= |a| && j <= |b|
  {
    && i <= p < |a| && LcsAt(a, b, p, j) == LcsAt(a, b, i, j)
    && forall k :: p < k <= |a| ==> LcsAt(a, b, k, j) < LcsAt(a, b, i, j)
  }

  /**
   * Which base line the walk takes first.  For the region's first target line it is the first equal one;
   * otherwise the last one from which a longest alignment still starts.
   */
  lemma {:induction false} FirstBaseLine<T>(a: seq<T>, b: seq<T>, i: nat, j: nat)
    requires i <= |a| && j <= |b| && WalkPairs(a, b, i, j) != []
    ensures var head := WalkPairs(a, b, i, j)[0];
            && Matches(a, b, i, j, head)
            && (head.j == j ==> forall k :: i <= k < head.i ==> a[k] != b[j])
            && (head.j > j ==> IsLastStart(a, b, i, j, head.i))
    decreases |a| - i + |b| - j
  {
    if a[i] == b[j] {
      StepAtMatch(a, b, i, j);
    } else {
      var dropBase, i', j' := StepAtGap(a, b, i, j);
      if dropBase {
        FirstBaseLine(a, b, i', j');
      } else {
        WalkReachesBase(a, b, i, j);
        PassedTargetFixesBase(a, b, i, j);
      }
    }
  }

  lemma PassedTargetFixesBase<T>(a: seq<T>, b: seq<T>, i: nat, j: nat)
    requires i < |a| && j < |b| && LcsAt(a, b, i + 1, j) < LcsAt(a, b, i, j)
    ensures IsLastStart(a, b, i, j, i)
  {
    forall k | i < k <= |a| ensures LcsAt(a, b, k, j) < LcsAt(a, b, i, j) {
      LcsAtShrinks(a, b, i + 1, j, k);
    }
  }

  /** Having passed over a target line, the walk matches the base line it stands at next. */
  lemma {:induction false} WalkReachesBase<T>(a: seq<T>, b: seq<T>, i: nat, j: nat)
    requires i < |a| && j < |b| && a[i] != b[j] && LcsAt(a, b, i + 1, j) < LcsAt(a, b, i, j)
    ensures WalkPairs(a, b, i, j) != []
    ensures var head := WalkPairs(a, b, i, j)[0]; head.i == i && j < head.j < |b| && a[i] == b[head.j]
    decreases |b| - j
  {
    var dropBase, i', j' := StepAtGap(a, b, i, j);
    if a[i] == b[j + 1] {
      StepAtMatch(a, b, i, j + 1);
    } else {
      TargetShrinks(a, b, i + 1, j);
      WalkReachesBase(a, b, i, j + 1);
    }
  }

  /** Behind its first pair the walk goes on as if it had started there. */
  lemma {:induction false} RestOfPairs<T>(a: seq<T>, b: seq<T>, i: nat, j: nat)
    requires i <= |a| && j <= |b| && WalkPairs(a, b, i, j) != []
    ensures var pairs := WalkPairs(a, b, i, j);
            && pairs[0].i < |a| && pairs[0].j < |b|
            && pairs[1..] == WalkPairs(a, b, pairs[0].i + 1, pairs[0].j + 1)
    decreases |a| - i + |b| - j
  {
    if a[i] == b[j] {
      StepAtMatch(a, b, i, j);
      assert ([Pair(i, j)] + WalkPairs(a, b, i + 1, j + 1))[1..] == WalkPairs(a, b, i + 1, j + 1);
    } else {
      var dropBase, i', j' := StepAtGap(a, b, i, j);
      RestOfPairs(a, b, i', j');
    }
  }

  // ---------- where it ends, and what it edits ----------

  /** Right behind the last target line, and behind the whole base unless that line was the target's last. */
  predicate EndsBehind(pairs: seq<Pair>, j: nat, lines: (nat, nat), end: (nat, nat)) {
    if pairs == [] then end == (lines.0, j)
    else
      var last := pairs[|pairs| - 1];
      end == (if last.j + 1 == lines.1 then last.i + 1 else lines.0, last.j + 1)
  }

  /** The walk ends right behind its last target line. */
  lemma {:induction false} EndFollowsLastPair<T>(a: seq<T>, b: seq<T>, i: nat, j: nat)
    requires i < |a| && j < |b|
    ensures EndsBehind(WalkPairs(a, b, i, j), j, (|a|, |b|), WalkEnd(a, b, i, j))
    decreases |a| - i + |b| - j
  {
    if a[i] == b[j] {
      StepAtMatch(a, b, i, j);
      if i + 1 < |a| && j + 1 < |b| {
        EndFollowsLastPair(a, b, i + 1, j + 1);
      }
      EndBehindMatch(Pair(i, j), WalkPairs(a, b, i + 1, j + 1), (|a|, |b|), WalkEnd(a, b, i + 1, j + 1));
    } else {
      var dropBase, i', j' := StepAtGap(a, b, i, j);
      if i' < |a| {
        EndFollowsLastPair(a, b, i', j');
        if !dropBase {
          WalkPairsLongest(a, b, i, j);
        }
      }
    }
  }

  lemma EndBehindMatch(head: Pair, rest: seq<Pair>, lines: (nat, nat), end: (nat, nat))
    requires head.i < lines.0 && head.j < lines.1
    requires if head.i + 1 < lines.0 && head.j + 1 < lines.1 then EndsBehind(rest, head.j + 1, lines, end)
             else rest == [] && end == (head.i + 1, head.j + 1)
    ensures EndsBehind([head] + rest, head.j, lines, end)
  {}

  /** The edits between the matched lines, one per gap. */
  function GapEdits(base: seq<byte>, target: seq<byte>, pairs: seq<Pair>, i: nat, j: nat): seq<Edit> {
    if pairs == [] then []
    else
      var head := pairs[0];
      (if head.i == i && head.j == j then []
       else [Edit(Offset(base, i), Offset(base, head.i), Offset(target, j), Offset(target, head.j))])
      + GapEdits(base, target, pairs[1..], head.i + 1, head.j + 1)
  }

  /** Right behind the last pair. */
  function Behind(pairs: seq<Pair>, i: nat, j: nat): (nat, nat) {
    if pairs == [] then (i, j) else (pairs[|pairs| - 1].i + 1, pairs[|pairs| - 1].j + 1)
  }

  lemma GapsAtMatch(base: seq<byte>, target: seq<byte>, w: WalkState, rest: seq<Pair>)
    ensures var next, pairs := MatchStep(base, target, w), [Pair(w.baseIndex, w.targetIndex)] + rest;
            && next.edits + GapEdits(base, target, rest, next.baseAnchor, next.targetAnchor)
               == w.edits + GapEdits(base, target, pairs, w.baseAnchor, w.targetAnchor)
            && Behind(rest, next.baseAnchor, next.targetAnchor) == Behind(pairs, w.baseAnchor, w.targetAnchor)
  {
    assert ([Pair(w.baseIndex, w.targetIndex)] + rest)[1..] == rest;
  }

  /** The walk edits exactly the gaps of its alignment, and anchors right behind its last pair. */
  lemma {:induction false} WalkEditsGaps(base: seq<byte>, target: seq<byte>, w: WalkState)
    requires w.baseIndex <= |Lines(base)| && w.targetIndex <= |Lines(target)|
    ensures var pairs := WalkPairs(Lines(base), Lines(target), w.baseIndex, w.targetIndex);
            var f := WalkFrom(base, target, w);
            && f.edits == w.edits + GapEdits(base, target, pairs, w.baseAnchor, w.targetAnchor)
            && (f.baseAnchor, f.targetAnchor) == Behind(pairs, w.baseAnchor, w.targetAnchor)
    decreases |Lines(base)| - w.baseIndex + |Lines(target)| - w.targetIndex
  {
    var a, b, i, j := Lines(base), Lines(target), w.baseIndex, w.targetIndex;
    if i < |a| && j < |b| {
      StepCursors(base, target, w);
      WalkEditsGaps(base, target, WalkStep(base, target, w));
      if a[i] == b[j] {
        StepAtMatch(a, b, i, j);
        GapsAtMatch(base, target, w, WalkPairs(a, b, i + 1, j + 1));
      } else {
        var dropBase, i', j' := StepAtGap(a, b, i, j);
      }
    }
  }

  lemma LinesOfSome(data: seq<byte>)
    requires data != []
    ensures Lines(data) != []
  {}

  /** The two halves of a line result where one cursor stands at its end. */
  lemma ResultAtEnd(base: seq<byte>, target: seq<byte>, end: (nat, nat))
    requires WalkEnd(Lines(base), Lines(target), 0, 0) == end
    ensures end.0 == |Lines(base)| ==> LineResult(base, target) == target[..Offset(target, end.1)]
    ensures end.1 == |Lines(target)| ==> LineResult(base, target) == target + base[Offset(base, end.0)..]
  {
    assert target[..|target|] == target && base[|base|..] == [];
  }

  /** What the line path produces, said of the alignment alone. */
  lemma LineResultFollowsAlignment(base: seq<byte>, target: seq<byte>)
    requires base != [] && target != []
    ensures var pairs := WalkPairs(Lines(base), Lines(target), 0, 0);
            if pairs == [] then LineResult(base, target) == []
            else
              var last := pairs[|pairs| - 1];
              LineResult(base, target) == if last.j + 1 < |Lines(target)| then target[..Offset(target, last.j + 1)]
                                          else target + base[Offset(base, last.i + 1)..]
  {
    var a, b := Lines(base), Lines(target);
    LinesOfSome(base);
    LinesOfSome(target);
    EndFollowsLastPair(a, b, 0, 0);
    ResultAtEnd(base, target, WalkEnd(a, b, 0, 0));
    OffsetZero(target);
  }

  /** Two files without a common line lose everything: the ranges delete the base and add nothing. */
  lemma NothingSharedGivesNothing(base: seq<byte>, target: seq<byte>)
    requires base != [] && target != []
    requires forall line :: line in Lines(base) ==> line !in Lines(target)
    ensures LineResult(base, target) == []
    ensures WellFormed(LinePatch(base, target), |base|) && Apply(base, LinePatch(base, target), |base|) == []
  {
    var a, b := Lines(base), Lines(target);
    LineResultFollowsAlignment(base, target);
    LcsOfDisjoint(a, b);
    assert a[0..] == a && b[0..] == b;
    WalkPairsLongest(a, b, 0, 0);
    LinePatchApplies(base, target);
  }
}
