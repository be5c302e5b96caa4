/** What a multi-range file patch means, and how the server applies one. */
module PatchApply {
  import opened Base

  /** One replacement; `offset` and `removeLen` address the file before any edit. */
  datatype FilePatchRange = FilePatchRange(offset: nat, removeLen: nat, replacement: seq<byte>)
  {
    function End(): nat { offset + removeLen }
  }

  const MAX_FILE_PATCH_RANGES: nat := 4096
  const FILE_MAX_BYTES: nat := 16 * 1024 * 1024

  datatype PatchError = EmptyPatch | TooManyRanges | Overlap | OutOfBounds | TooLarge

  /** Sorted, non-overlapping and inside the first `end` bytes of the base. */
  predicate WellFormed(ranges: seq<FilePatchRange>, end: nat) {
    && (forall i :: 0 <= i < |ranges| ==> ranges[i].End() <= end)
    && (forall i, j :: 0 <= i < j < |ranges| ==> ranges[i].End() <= ranges[j].offset)
  }

  /** The first `end` bytes of `base` with the ranges substituted. */
  function Apply(base: seq<byte>, ranges: seq<FilePatchRange>, end: nat): seq<byte>
    requires end <= |base| && WellFormed(ranges, end)
  {
    if ranges == [] then base[..end]
    else
      var last := ranges[|ranges| - 1];
      Apply(base, ranges[..|ranges| - 1], last.offset) + last.replacement + base[last.End()..end]
  }

  /** Everything behind the last range is carried over unchanged. */
  lemma ApplyTail(base: seq<byte>, ranges: seq<FilePatchRange>, mid: nat, end: nat)
    requires mid <= end <= |base| && WellFormed(ranges, mid)
    ensures WellFormed(ranges, end)
    ensures Apply(base, ranges, end) == Apply(base, ranges, mid) + base[mid..end]
  {
    if ranges == [] {
      assert base[..end] == base[..mid] + base[mid..end];
    } else {
      var last := ranges[|ranges| - 1];
      assert base[last.End()..end] == base[last.End()..mid] + base[mid..end];
    }
  }

  /** One more range at the end. */
  lemma ApplyPush(base: seq<byte>, ranges: seq<FilePatchRange>, range: FilePatchRange, end: nat)
    requires range.End() <= end <= |base| && WellFormed(ranges, range.offset)
    ensures WellFormed(ranges + [range], end)
    ensures Apply(base, ranges + [range], end)
         == Apply(base, ranges, range.offset) + range.replacement + base[range.End()..end]
  {
    assert (ranges + [range])[..|ranges|] == ranges;
  }

  /** One round of the splicing sweep. */
  lemma ApplyNext(base: seq<byte>, ranges: seq<FilePatchRange>, i: nat, cursor: nat)
    requires i < |ranges| && WellFormed(ranges, |base|)
    requires WellFormed(ranges[..i], cursor) && cursor <= ranges[i].offset
    ensures WellFormed(ranges[..i + 1], ranges[i].End())
    ensures Apply(base, ranges[..i + 1], ranges[i].End())
         == Apply(base, ranges[..i], cursor) + base[cursor..ranges[i].offset] + ranges[i].replacement
  {
    var range := ranges[i];
    ApplyTail(base, ranges[..i], cursor, range.offset);
    ApplyPush(base, ranges[..i], range, range.End());
    assert ranges[..i + 1] == ranges[..i] + [range];
  }

  function RemovedTotal(ranges: seq<FilePatchRange>): nat {
    if ranges == [] then 0 else RemovedTotal(ranges[..|ranges| - 1]) + ranges[|ranges| - 1].removeLen
  }

  function ReplacementTotal(ranges: seq<FilePatchRange>): nat {
    if ranges == [] then 0 else ReplacementTotal(ranges[..|ranges| - 1]) + |ranges[|ranges| - 1].replacement|
  }

  /** Applying a patch changes the length by exactly what the ranges say. */
  lemma {:induction false} ApplyLength(base: seq<byte>, ranges: seq<FilePatchRange>, end: nat)
    requires end <= |base| && WellFormed(ranges, end)
    ensures |Apply(base, ranges, end)| + RemovedTotal(ranges) == end + ReplacementTotal(ranges)
  {
    if ranges != [] {
      ApplyLength(base, ranges[..|ranges| - 1], ranges[|ranges| - 1].offset);
    }
  }

  lemma CheckNext(ranges: seq<FilePatchRange>, i: nat, cursor: nat)
    requires i < |ranges| && WellFormed(ranges[..i], cursor) && cursor <= ranges[i].offset
    ensures WellFormed(ranges[..i + 1], ranges[i].End())
    ensures RemovedTotal(ranges[..i + 1]) == RemovedTotal(ranges[..i]) + ranges[i].removeLen
    ensures ReplacementTotal(ranges[..i + 1]) == ReplacementTotal(ranges[..i]) + |ranges[i].replacement|
  {
    assert ranges[..i + 1][..i] == ranges[..i];
  }

  /** First pass of `materialize_file_patch_ranges`: order, bounds and byte totals. */
  method CheckRanges(base: seq<byte>, ranges: seq<FilePatchRange>)
    returns (r: Result<(nat, nat), PatchError>)
    ensures r.Ok? <==> WellFormed(ranges, |base|)
    ensures r.Ok? ==> r.value == (RemovedTotal(ranges), ReplacementTotal(ranges))
  {
    var cursor: nat, removed, added := 0, 0, 0;
    for i := 0 to |ranges|
      invariant WellFormed(ranges[..i], cursor) && cursor <= |base|
      invariant cursor == (if i == 0 then 0 else ranges[i - 1].End())
      invariant removed == RemovedTotal(ranges[..i]) && added == ReplacementTotal(ranges[..i])
    {
      var range := ranges[i];
      if range.offset < cursor {
        assert ranges[i - 1].End() > ranges[i].offset;
        return Err(Overlap);
      }
      if range.End() > |base| {
        return Err(OutOfBounds);
      }
      CheckNext(ranges, i, cursor);
      cursor, removed, added := range.End(), removed + range.removeLen, added + |range.replacement|;
    }
    assert ranges[..|ranges|] == ranges;
    return Ok((removed, added));
  }

  /** Second pass: one sweep over the base, copying gaps and splicing replacements. */
  method Splice(base: seq<byte>, ranges: seq<FilePatchRange>) returns (data: seq<byte>)
    requires WellFormed(ranges, |base|)
    ensures data == Apply(base, ranges, |base|)
  {
    data := [];
    var cursor: nat := 0;
    for i := 0 to |ranges|
      invariant cursor <= |base| && WellFormed(ranges[..i], cursor)
      invariant cursor == (if i == 0 then 0 else ranges[i - 1].End())
      invariant data == Apply(base, ranges[..i], cursor)
    {
      var range := ranges[i];
      assert cursor <= range.offset;
      ApplyNext(base, ranges, i, cursor);
      data := data + base[cursor..range.offset] + range.replacement;
      cursor := range.End();
    }
    assert ranges[..|ranges|] == ranges;
    ApplyTail(base, ranges, cursor, |base|);
    data := data + base[cursor..];
  }

  /** A non-empty, bounded, well-formed patch whose result is within the file limit. */
  predicate Acceptable(base: seq<byte>, ranges: seq<FilePatchRange>) {
    && 0 < |ranges| <= MAX_FILE_PATCH_RANGES
    && WellFormed(ranges, |base|)
    && |Apply(base, ranges, |base|)| <= FILE_MAX_BYTES
  }

  /** `materialize_file_patch_ranges`: accepts exactly the acceptable patches. */
  method Materialize(base: seq<byte>, ranges: seq<FilePatchRange>)
    returns (r: Result<seq<byte>, PatchError>)
    ensures r.Ok? <==> Acceptable(base, ranges)
    ensures r.Ok? ==> r.value == Apply(base, ranges, |base|)
  {
    if ranges == [] {
      return Err(EmptyPatch);
    }
    if |ranges| > MAX_FILE_PATCH_RANGES {
      return Err(TooManyRanges);
    }
    var totals := CheckRanges(base, ranges);
    if totals.Err? {
      return Err(totals.error);
    }
    ApplyLength(base, ranges, |base|);
    if |base| - totals.value.0 + totals.value.1 > FILE_MAX_BYTES {
      return Err(TooLarge);
    }
    var data := Splice(base, ranges);
    return Ok(data);
  }
}
