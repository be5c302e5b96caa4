/** The walk through the LCS table that yields line edits. */
module PatchLines {
  import opened Base
  import opened LineSplit
  import opened PatchScript
  import opened PatchLcs

  /** How one round of the walk moves the cursors: past a match, else towards the longer remainder. */
  function NextCursors<T(==)>(a: seq<T>, b: seq<T>, i: nat, j: nat): (r: (nat, nat))
    requires i < |a| && j < |b|
    ensures i <= r.0 <= |a| && j <= r.1 <= |b| && i + j < r.0 + r.1
  {
    if a[i] == b[j] then (i + 1, j + 1)
    else if Lcs(a[i + 1..], b[j..]) >= Lcs(a[i..], b[j + 1..]) then (i + 1, j)
    else (i, j + 1)
  }

  /** Where the walk's cursors stand when its loop ends. */
  function WalkEnd<T(==)>(a: seq<T>, b: seq<T>, i: nat, j: nat): (r: (nat, nat))
    requires i <= |a| && j <= |b|
    ensures i <= r.0 <= |a| && j <= r.1 <= |b|
    ensures r.0 == |a| || r.1 == |b|
    decreases |a| - i + |b| - j
  {
    if i == |a| || j == |b| then (i, j)
    else var next := NextCursors(a, b, i, j); WalkEnd(a, b, next.0, next.1)
  }

  /** How many pairs of lines the walk matches. */
  function WalkMatches<T(==)>(a: seq<T>, b: seq<T>, i: nat, j: nat): nat
    requires i <= |a| && j <= |b|
    decreases |a| - i + |b| - j
  {
    if i == |a| || j == |b| then 0
    else
      var next := NextCursors(a, b, i, j);
      (if a[i] == b[j] then 1 else 0) + WalkMatches(a, b, next.0, next.1)
  }

  /** Greedy matching guided by the table loses nothing: the walk finds a longest common subsequence. */
  lemma {:induction false} WalkMatchesLcs<T>(a: seq<T>, b: seq<T>, i: nat, j: nat)
    requires i <= |a| && j <= |b|
    ensures WalkMatches(a, b, i, j) == Lcs(a[i..], b[j..])
    decreases |a| - i + |b| - j
  {
    if i < |a| && j < |b| {
      assert a[i..][1..] == a[i + 1..] && b[j..][1..] == b[j + 1..];
      WalkMatchesLcs(a, b, i + 1, j + 1);
      WalkMatchesLcs(a, b, i + 1, j);
      WalkMatchesLcs(a, b, i, j + 1);
    }
  }

  datatype WalkState = WalkState(
    edits: seq<Edit>,
    baseIndex: nat, targetIndex: nat,
    baseAnchor: nat, targetAnchor: nat)

  /** The edit from the anchors to a pair of line positions. */
  function PendingEdit(base: seq<byte>, target: seq<byte>, w: WalkState, baseIndex: nat, targetIndex: nat): Edit {
    Edit(Offset(base, w.baseAnchor), Offset(base, baseIndex),
         Offset(target, w.targetAnchor), Offset(target, targetIndex))
  }

  /** Flush the pending edit, if the positions have moved past the anchors. */
  function CloseAt(base: seq<byte>, target: seq<byte>, w: WalkState, baseIndex: nat, targetIndex: nat): seq<Edit> {
    if baseIndex != w.baseAnchor || targetIndex != w.targetAnchor
    then w.edits + [PendingEdit(base, target, w, baseIndex, targetIndex)] else w.edits
  }

  /** The edits so far form a script up to the anchors, which trail the cursors. */
  predicate Walking(base: seq<byte>, target: seq<byte>, w: WalkState) {
    && w.baseAnchor <= w.baseIndex <= |Lines(base)|
    && w.targetAnchor <= w.targetIndex <= |Lines(target)|
    && Script(base, target, w.edits, Offset(base, w.baseAnchor), Offset(target, w.targetAnchor))
  }

  lemma CloseKeepsScript(base: seq<byte>, target: seq<byte>, w: WalkState, i: nat, j: nat)
    requires Walking(base, target, w)
    requires w.baseAnchor <= i <= |Lines(base)| && w.targetAnchor <= j <= |Lines(target)|
    ensures Script(base, target, CloseAt(base, target, w, i, j), Offset(base, i), Offset(target, j))
  {
    OffsetMonotone(base, w.baseAnchor, i);
    OffsetMonotone(target, w.targetAnchor, j);
    ScriptPush(base, target, w.edits, PendingEdit(base, target, w, i, j));
  }

  /** A matching pair of lines: flush, then move cursors and anchors past it. */
  function MatchStep(base: seq<byte>, target: seq<byte>, w: WalkState): WalkState {
    WalkState(CloseAt(base, target, w, w.baseIndex, w.targetIndex),
              w.baseIndex + 1, w.targetIndex + 1, w.baseIndex + 1, w.targetIndex + 1)
  }

  /** Equal lines are equal bytes between their offsets. */
  lemma SharedLine(base: seq<byte>, target: seq<byte>, i: nat, j: nat)
    requires i < |Lines(base)| && j < |Lines(target)| && Lines(base)[i] == Lines(target)[j]
    ensures Offset(base, i) <= Offset(base, i + 1) && Offset(target, j) <= Offset(target, j + 1)
    ensures base[Offset(base, i)..Offset(base, i + 1)] == target[Offset(target, j)..Offset(target, j + 1)]
  {
    OffsetStep(base, i);
    OffsetStep(target, j);
  }

  /** A script that a matched line extends. */
  lemma ScriptPastLine(base: seq<byte>, target: seq<byte>, edits: seq<Edit>, i: nat, j: nat)
    requires i < |Lines(base)| && j < |Lines(target)| && Lines(base)[i] == Lines(target)[j]
    requires Script(base, target, edits, Offset(base, i), Offset(target, j))
    ensures Script(base, target, edits, Offset(base, i + 1), Offset(target, j + 1))
  {
    SharedLine(base, target, i, j);
    ScriptExtend(base, target, edits, Offset(base, i), Offset(target, j), Offset(base, i + 1), Offset(target, j + 1));
  }

  lemma MatchStepWalks(base: seq<byte>, target: seq<byte>, w: WalkState, edits: seq<Edit>)
    requires w.baseIndex < |Lines(base)| && w.targetIndex < |Lines(target)|
    requires edits == CloseAt(base, target, w, w.baseIndex, w.targetIndex)
    requires Script(base, target, edits, Offset(base, w.baseIndex + 1), Offset(target, w.targetIndex + 1))
    ensures Walking(base, target, MatchStep(base, target, w))
  {}

  lemma MatchKeepsWalking(base: seq<byte>, target: seq<byte>, w: WalkState)
    requires Walking(base, target, w)
    requires w.baseIndex < |Lines(base)| && w.targetIndex < |Lines(target)|
    requires Lines(base)[w.baseIndex] == Lines(target)[w.targetIndex]
    ensures Walking(base, target, MatchStep(base, target, w))
  {
    var edits := CloseAt(base, target, w, w.baseIndex, w.targetIndex);
    CloseKeepsScript(base, target, w, w.baseIndex, w.targetIndex);
    ScriptPastLine(base, target, edits, w.baseIndex, w.targetIndex);
    MatchStepWalks(base, target, w, edits);
  }

  /** One round of the walk, with the table read through its meaning. */
  function WalkStep(base: seq<byte>, target: seq<byte>, w: WalkState): WalkState
    requires w.baseIndex < |Lines(base)| && w.targetIndex < |Lines(target)|
  {
    if Lines(base)[w.baseIndex] == Lines(target)[w.targetIndex] then MatchStep(base, target, w)
    else
      var next := NextCursors(Lines(base), Lines(target), w.baseIndex, w.targetIndex);
      w.(baseIndex := next.0, targetIndex := next.1)
  }

  /** The walk run to its end. */
  function WalkFrom(base: seq<byte>, target: seq<byte>, w: WalkState): WalkState
    decreases SatSub(|Lines(base)|, w.baseIndex) + SatSub(|Lines(target)|, w.targetIndex)
  {
    if w.baseIndex >= |Lines(base)| || w.targetIndex >= |Lines(target)| then w
    else WalkFrom(base, target, WalkStep(base, target, w))
  }

  const START := WalkState([], 0, 0, 0, 0)

  /** Every round keeps the script. */
  lemma StepKeepsWalking(base: seq<byte>, target: seq<byte>, w: WalkState)
    requires Walking(base, target, w)
    requires w.baseIndex < |Lines(base)| && w.targetIndex < |Lines(target)|
    ensures Walking(base, target, WalkStep(base, target, w))
  {
    if Lines(base)[w.baseIndex] == Lines(target)[w.targetIndex] {
      MatchKeepsWalking(base, target, w);
    }
  }

  /** A round moves the cursors as `NextCursors` says, and adds an edit only at a match. */
  lemma StepCursors(base: seq<byte>, target: seq<byte>, w: WalkState)
    requires w.baseIndex < |Lines(base)| && w.targetIndex < |Lines(target)|
    ensures var a, b, i, j := Lines(base), Lines(target), w.baseIndex, w.targetIndex;
            var f := WalkStep(base, target, w);
            && (f.baseIndex, f.targetIndex) == NextCursors(a, b, i, j)
            && |f.edits| <= |w.edits| + (if a[i] == b[j] then 1 else 0)
  {}

  lemma {:induction false} WalkFromKeeps(base: seq<byte>, target: seq<byte>, w: WalkState)
    requires Walking(base, target, w)
    ensures Walking(base, target, WalkFrom(base, target, w))
    decreases |Lines(base)| - w.baseIndex + |Lines(target)| - w.targetIndex
  {
    if w.baseIndex < |Lines(base)| && w.targetIndex < |Lines(target)| {
      StepKeepsWalking(base, target, w);
      StepCursors(base, target, w);
      WalkFromKeeps(base, target, WalkStep(base, target, w));
    }
  }

  lemma {:induction false} WalkFromCursors(base: seq<byte>, target: seq<byte>, w: WalkState)
    requires w.baseIndex <= |Lines(base)| && w.targetIndex <= |Lines(target)|
    ensures var a, b, f := Lines(base), Lines(target), WalkFrom(base, target, w);
            && (f.baseIndex, f.targetIndex) == WalkEnd(a, b, w.baseIndex, w.targetIndex)
            && |f.edits| <= |w.edits| + WalkMatches(a, b, w.baseIndex, w.targetIndex)
    decreases |Lines(base)| - w.baseIndex + |Lines(target)| - w.targetIndex
  {
    if w.baseIndex < |Lines(base)| && w.targetIndex < |Lines(target)| {
      StepCursors(base, target, w);
      WalkFromCursors(base, target, WalkStep(base, target, w));
    }
  }

  /** The whole walk: a script up to its anchors, with no more edits than matched lines. */
  lemma WalkIsScript(base: seq<byte>, target: seq<byte>)
    ensures var a, b, f := Lines(base), Lines(target), WalkFrom(base, target, START);
            && Walking(base, target, f)
            && (f.baseIndex, f.targetIndex) == WalkEnd(a, b, 0, 0)
            && |f.edits| <= Lcs(a, b)
  {
    OffsetZero(base);
    OffsetZero(target);
    WalkFromKeeps(base, target, START);
    WalkFromCursors(base, target, START);
    WalkMatchesLcs(Lines(base), Lines(target), 0, 0);
    assert Lines(base)[0..] == Lines(base) && Lines(target)[0..] == Lines(target);
  }

  /** The tie-breaking comparison of two neighbouring cells. */
  method PreferBase<T(==)>(lcs: array<u32>, a: seq<T>, b: seq<T>, i: nat, j: nat) returns (r: bool)
    requires lcs.Length == (|a| + 1) * (|b| + 1) && Filled(lcs[..], a, b, 0, 0)
    requires i < |a| && j < |b| && a[i] != b[j]
    ensures NextCursors(a, b, i, j) == if r then (i + 1, j) else (i, j + 1)
  {
    var down, right := Cell(|b| + 1, i + 1, j), Cell(|b| + 1, i, j + 1);
    assert down < lcs.Length && right < lcs.Length;
    return lcs[..][down] >= lcs[..][right];
  }

  /** The loop over the two line cursors, reading the filled table. */
  method Walk(base: seq<byte>, target: seq<byte>, baseLines: seq<seq<byte>>, targetLines: seq<seq<byte>>,
              lcs: array<u32>)
    returns (w: WalkState)
    requires baseLines == Lines(base) && targetLines == Lines(target)
    requires lcs.Length == (|baseLines| + 1) * (|targetLines| + 1)
    requires Filled(lcs[..], baseLines, targetLines, 0, 0)
    ensures w == WalkFrom(base, target, START)
  {
    w := START;
    while w.baseIndex < |baseLines| && w.targetIndex < |targetLines|
      invariant WalkFrom(base, target, w) == WalkFrom(base, target, START)
      decreases SatSub(|baseLines|, w.baseIndex) + SatSub(|targetLines|, w.targetIndex)
    {
      var i, j := w.baseIndex, w.targetIndex;
      if baseLines[i] == targetLines[j] {
        w := MatchStep(base, target, w);
      } else {
        var preferBase := PreferBase(lcs, baseLines, targetLines, i, j);
        w := if preferBase then w.(baseIndex := i + 1) else w.(targetIndex := j + 1);
      }
    }
  }
}
