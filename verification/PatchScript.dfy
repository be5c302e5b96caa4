/**
 * Edit scripts: ordered correspondences between a base file and a target file that agree
 * everywhere outside the edits.  Coalescing keeps that agreement, and turning a script into
 * ranges yields a patch that produces the target up to the script's end.
 */
module PatchScript {
  import opened Base
  import opened PatchApply

  /** `base[baseStart..baseEnd]` is to become `target[targetStart..targetEnd]`. */
  datatype Edit = Edit(baseStart: nat, baseEnd: nat, targetStart: nat, targetEnd: nat)
  {
    predicate IsEmpty() { baseStart == baseEnd && targetStart == targetEnd }

    function ToRange(target: seq<byte>): FilePatchRange
      requires baseStart <= baseEnd && targetStart <= targetEnd <= |target|
    {
      FilePatchRange(baseStart, baseEnd - baseStart, target[targetStart..targetEnd])
    }
  }

  const COALESCE_GAP_BYTES: nat := 32

  /** Replaying `edits` leads from the origin to (`basePos`, `targetPos`) of the two files. */
  predicate Script(base: seq<byte>, target: seq<byte>, edits: seq<Edit>, basePos: nat, targetPos: nat) {
    && basePos <= |base| && targetPos <= |target|
    && if edits == [] then base[..basePos] == target[..targetPos]
       else
         var e := edits[|edits| - 1];
         && e.baseStart <= e.baseEnd <= basePos
         && e.targetStart <= e.targetEnd <= targetPos
         && base[e.baseEnd..basePos] == target[e.targetEnd..targetPos]
         && Script(base, target, edits[..|edits| - 1], e.baseStart, e.targetStart)
  }

  /** Running on over a stretch on which the files agree. */
  lemma ScriptExtend(base: seq<byte>, target: seq<byte>, edits: seq<Edit>, b: nat, t: nat, b': nat, t': nat)
    requires Script(base, target, edits, b, t)
    requires b <= b' <= |base| && t <= t' <= |target| && base[b..b'] == target[t..t']
    ensures Script(base, target, edits, b', t')
  {
    if edits == [] {
      assert base[..b'] == base[..b] + base[b..b'];
      assert target[..t'] == target[..t] + target[t..t'];
    } else {
      var e := edits[|edits| - 1];
      assert base[e.baseEnd..b'] == base[e.baseEnd..b] + base[b..b'];
      assert target[e.targetEnd..t'] == target[e.targetEnd..t] + target[t..t'];
    }
  }

  lemma ScriptPush(base: seq<byte>, target: seq<byte>, edits: seq<Edit>, e: Edit)
    requires Script(base, target, edits, e.baseStart, e.targetStart)
    requires e.baseStart <= e.baseEnd <= |base| && e.targetStart <= e.targetEnd <= |target|
    ensures Script(base, target, edits + [e], e.baseEnd, e.targetEnd)
  {
    assert (edits + [e])[..|edits|] == edits;
    assert base[e.baseEnd..e.baseEnd] == target[e.targetEnd..e.targetEnd];
  }

  /** A script never steps outside either file. */
  lemma {:induction false} ScriptBounds(base: seq<byte>, target: seq<byte>, edits: seq<Edit>, b: nat, t: nat, i: nat)
    requires Script(base, target, edits, b, t) && i < |edits|
    ensures edits[i].baseStart <= edits[i].baseEnd <= b <= |base|
    ensures edits[i].targetStart <= edits[i].targetEnd <= t <= |target|
  {
    if i < |edits| - 1 {
      var e := edits[|edits| - 1];
      ScriptBounds(base, target, edits[..|edits| - 1], e.baseStart, e.targetStart, i);
    }
  }

  function ToRanges(base: seq<byte>, target: seq<byte>, edits: seq<Edit>, b: nat, t: nat): (r: seq<FilePatchRange>)
    requires Script(base, target, edits, b, t)
    ensures |r| == |edits|
  {
    if edits == [] then []
    else
      var e := edits[|edits| - 1];
      ToRanges(base, target, edits[..|edits| - 1], e.baseStart, e.targetStart) + [e.ToRange(target)]
  }

  lemma {:induction false} ToRangesAt(base: seq<byte>, target: seq<byte>, edits: seq<Edit>, b: nat, t: nat, i: nat)
    requires Script(base, target, edits, b, t) && i < |edits|
    ensures edits[i].baseStart <= edits[i].baseEnd && edits[i].targetStart <= edits[i].targetEnd <= |target|
    ensures ToRanges(base, target, edits, b, t)[i] == edits[i].ToRange(target)
  {
    if i < |edits| - 1 {
      var e := edits[|edits| - 1];
      ToRangesAt(base, target, edits[..|edits| - 1], e.baseStart, e.targetStart, i);
    }
  }

  /** The central fact: a script that reaches (b, t) rewrites `base[..b]` into `target[..t]`. */
  lemma {:induction false} ScriptApplies(base: seq<byte>, target: seq<byte>, edits: seq<Edit>, b: nat, t: nat)
    requires Script(base, target, edits, b, t)
    ensures WellFormed(ToRanges(base, target, edits, b, t), b)
    ensures Apply(base, ToRanges(base, target, edits, b, t), b) == target[..t]
  {
    if edits == [] {
      assert target[..t] == base[..b];
    } else {
      var e, front := edits[|edits| - 1], edits[..|edits| - 1];
      var range, ranges := e.ToRange(target), ToRanges(base, target, front, e.baseStart, e.targetStart);
      ScriptApplies(base, target, front, e.baseStart, e.targetStart);
      ApplyPush(base, ranges, range, b);
      assert ToRanges(base, target, edits, b, t) == ranges + [range];
      ThreeSlices(target, e.targetStart, e.targetEnd, t);
    }
  }

  lemma ThreeSlices(s: seq<byte>, i: nat, j: nat, k: nat)
    requires i <= j <= k <= |s|
    ensures s[..k] == s[..i] + s[i..j] + s[j..k]
  {}

  /** One round of the coalescing loop. */
  function CoalesceStep(done: seq<Edit>, e: Edit): seq<Edit> {
    if e.IsEmpty() then done
    else if done != [] && SatSub(e.baseStart, done[|done| - 1].baseEnd) <= COALESCE_GAP_BYTES then
      done[..|done| - 1] + [done[|done| - 1].(baseEnd := e.baseEnd, targetEnd := e.targetEnd)]
    else done + [e]
  }

  function Coalesce(edits: seq<Edit>): seq<Edit> {
    if edits == [] then [] else CoalesceStep(Coalesce(edits[..|edits| - 1]), edits[|edits| - 1])
  }

  method CoalesceEdits(edits: seq<Edit>) returns (coalesced: seq<Edit>)
    ensures coalesced == Coalesce(edits)
  {
    coalesced := [];
    for i := 0 to |edits|
      invariant coalesced == Coalesce(edits[..i])
    {
      var e := edits[i];
      assert edits[..i + 1][..i] == edits[..i];
      if !e.IsEmpty() {
        if coalesced != [] && SatSub(e.baseStart, coalesced[|coalesced| - 1].baseEnd) <= COALESCE_GAP_BYTES {
          var previous := coalesced[|coalesced| - 1];
          coalesced := coalesced[..|coalesced| - 1] + [previous.(baseEnd := e.baseEnd, targetEnd := e.targetEnd)];
        } else {
          coalesced := coalesced + [e];
        }
      }
    }
    assert edits[..|edits|] == edits;
  }

  /** Merging absorbs the unchanged gap into both sides, so the script still ends at the same place. */
  lemma {:induction false} CoalesceKeepsScript(base: seq<byte>, target: seq<byte>, edits: seq<Edit>, b: nat, t: nat)
    requires Script(base, target, edits, b, t)
    ensures Script(base, target, Coalesce(edits), b, t)
  {
    if edits != [] {
      var e := edits[|edits| - 1];
      CoalesceKeepsScript(base, target, edits[..|edits| - 1], e.baseStart, e.targetStart);
      CoalesceStepKeepsScript(base, target, Coalesce(edits[..|edits| - 1]), e);
      ScriptExtend(base, target, Coalesce(edits), e.baseEnd, e.targetEnd, b, t);
    }
  }

  lemma CoalesceStepKeepsScript(base: seq<byte>, target: seq<byte>, done: seq<Edit>, e: Edit)
    requires Script(base, target, done, e.baseStart, e.targetStart)
    requires e.baseStart <= e.baseEnd <= |base| && e.targetStart <= e.targetEnd <= |target|
    ensures Script(base, target, CoalesceStep(done, e), e.baseEnd, e.targetEnd)
  {
    if e.IsEmpty() {
    } else if done != [] && SatSub(e.baseStart, done[|done| - 1].baseEnd) <= COALESCE_GAP_BYTES {
      var p := done[|done| - 1];
      ScriptPush(base, target, done[..|done| - 1], p.(baseEnd := e.baseEnd, targetEnd := e.targetEnd));
    } else {
      ScriptPush(base, target, done, e);
    }
  }

  /** Neighbouring edits are more than the coalescing gap apart. */
  predicate Separated(edits: seq<Edit>) {
    forall i :: 0 <= i < |edits| - 1 ==> edits[i].baseEnd + COALESCE_GAP_BYTES < edits[i + 1].baseStart
  }

  lemma {:induction false} CoalesceSeparates(edits: seq<Edit>)
    ensures Separated(Coalesce(edits)) && |Coalesce(edits)| <= |edits|
  {
    if edits != [] {
      CoalesceSeparates(edits[..|edits| - 1]);
      StepSeparates(Coalesce(edits[..|edits| - 1]), edits[|edits| - 1]);
    }
  }

  lemma StepSeparates(done: seq<Edit>, e: Edit)
    requires Separated(done)
    ensures Separated(CoalesceStep(done, e)) && |CoalesceStep(done, e)| <= |done| + 1
  {
    var next := CoalesceStep(done, e);
    forall i | 0 <= i < |next| - 1 ensures next[i].baseEnd + COALESCE_GAP_BYTES < next[i + 1].baseStart {
      if i + 1 < |done| {
        assert done[i].baseEnd + COALESCE_GAP_BYTES < done[i + 1].baseStart;
      }
    }
  }

  /** A list that ends in a real edit ends, coalesced, where that edit does. */
  lemma CoalesceEnd(edits: seq<Edit>)
    requires edits != [] && !edits[|edits| - 1].IsEmpty()
    ensures Coalesce(edits) != []
    ensures var last, merged := edits[|edits| - 1], Coalesce(edits)[|Coalesce(edits)| - 1];
            merged.baseEnd == last.baseEnd && merged.targetEnd == last.targetEnd
  {}

  /** The two lists side by side, or joined across a gap that is close enough. */
  function Join(left: seq<Edit>, right: seq<Edit>, close: bool): seq<Edit>
    requires left != [] && right != []
  {
    if !close then left + right
    else
      var merged := left[|left| - 1].(baseEnd := right[0].baseEnd, targetEnd := right[0].targetEnd);
      left[..|left| - 1] + [merged] + right[1..]
  }

  lemma JoinStep(left: seq<Edit>, right: seq<Edit>, close: bool, e: Edit)
    requires left != [] && right != []
    ensures CoalesceStep(right, e) != []
    ensures CoalesceStep(Join(left, right, close), e) == Join(left, CoalesceStep(right, e), close)
  {}

  /** The gap between two edits is close enough to be merged away. */
  predicate Close(p: Edit, e: Edit) { SatSub(e.baseStart, p.baseEnd) <= COALESCE_GAP_BYTES }

  lemma JoinOne(left: seq<Edit>, e: Edit)
    requires left != [] && !left[|left| - 1].IsEmpty() && !e.IsEmpty()
    ensures Coalesce(left) != [] && Coalesce([e]) == [e]
    ensures CoalesceStep(Coalesce(left), e) == Join(Coalesce(left), [e], Close(left[|left| - 1], e))
  {
    CoalesceEnd(left);
    assert [e][..0] == [] && Coalesce([]) == [];
  }

  lemma CoalescePush(edits: seq<Edit>, e: Edit)
    ensures Coalesce(edits + [e]) == CoalesceStep(Coalesce(edits), e)
  {
    assert (edits + [e])[..|edits|] == edits;
  }

  /** Two lists of edits are merged at their boundary exactly when the gap between them is close enough. */
  lemma {:induction false} CoalesceJoins(left: seq<Edit>, right: seq<Edit>)
    requires left != [] && !left[|left| - 1].IsEmpty() && right != [] && !right[0].IsEmpty()
    ensures Coalesce(left) != [] && Coalesce(right) != []
    ensures Coalesce(left + right) == Join(Coalesce(left), Coalesce(right), Close(left[|left| - 1], right[0]))
    decreases |right|
  {
    var e, front := right[|right| - 1], right[..|right| - 1];
    assert right == front + [e] && left + right == left + front + [e];
    CoalescePush(left + front, e);
    CoalescePush(front, e);
    if front == [] {
      JoinOne(left, e);
      assert left + front == left && right == [e];
    } else {
      CoalesceJoins(left, front);
      JoinStep(Coalesce(left), Coalesce(front), Close(left[|left| - 1], right[0]), e);
    }
  }
}
