/**
 * The dynamic-programming table behind the line-level diff.  `Lcs` is the recurrence
 * the table is filled with; `LcsIsMaximum` and `LcsIsReached` tie it to the independent
 * notion of a longest common subsequence.
 */
module PatchLcs {
  import opened Base

  function Lcs<T(==)>(a: seq<T>, b: seq<T>): nat
    decreases |a| + |b|
  {
    if a == [] || b == [] then 0
    else if a[0] == b[0] then 1 + Lcs(a[1..], b[1..])
    else Max(Lcs(a[1..], b), Lcs(a, b[1..]))
  }

  /** `s` can be obtained from `a` by deleting elements. */
  predicate IsSubsequence<T(==)>(s: seq<T>, a: seq<T>)
    decreases |a|
  {
    || s == []
    || (a != [] && s[0] == a[0] && IsSubsequence(s[1..], a[1..]))
    || (a != [] && IsSubsequence(s, a[1..]))
  }

  /** Dropping the head of a subsequence, or the unused head of its host, changes nothing. */
  lemma {:induction false} SubsequenceTail<T>(s: seq<T>, a: seq<T>)
    requires s != [] && IsSubsequence(s, a)
    ensures a != [] && IsSubsequence(s[1..], a[1..])
    decreases |a|
  {
    if !(s[0] == a[0] && IsSubsequence(s[1..], a[1..])) {
      SubsequenceTail(s, a[1..]);
      SubsequenceWeaken(s[1..], a[1..]);
    }
  }

  lemma SubsequenceWeaken<T>(s: seq<T>, a: seq<T>)
    requires a != [] && IsSubsequence(s, a[1..])
    ensures IsSubsequence(s, a)
  {}

  /** No common subsequence is longer than the table says. */
  lemma {:induction false} LcsIsMaximum<T>(a: seq<T>, b: seq<T>, s: seq<T>)
    requires IsSubsequence(s, a) && IsSubsequence(s, b)
    ensures |s| <= Lcs(a, b)
    decreases |a| + |b|
  {
    if s == [] {
    } else if a[0] == b[0] {
      SubsequenceTail(s, a);
      SubsequenceTail(s, b);
      LcsIsMaximum(a[1..], b[1..], s[1..]);
    } else if s[0] == a[0] {
      LcsIsMaximum(a, b[1..], s);
    } else {
      LcsIsMaximum(a[1..], b, s);
    }
  }

  /** Some common subsequence is exactly that long. */
  lemma {:induction false} LcsIsReached<T>(a: seq<T>, b: seq<T>) returns (s: seq<T>)
    ensures IsSubsequence(s, a) && IsSubsequence(s, b)
    ensures |s| == Lcs(a, b)
    decreases |a| + |b|
  {
    if a == [] || b == [] {
      s := [];
    } else if a[0] == b[0] {
      var rest := LcsIsReached(a[1..], b[1..]);
      s := [a[0]] + rest;
      assert s[1..] == rest;
    } else if Lcs(a[1..], b) >= Lcs(a, b[1..]) {
      s := LcsIsReached(a[1..], b);
    } else {
      s := LcsIsReached(a, b[1..]);
    }
  }

  lemma LcsBound<T>(a: seq<T>, b: seq<T>)
    ensures Lcs(a, b) <= |a| && Lcs(a, b) <= |b|
    decreases |a| + |b|
  {}

  /** A shared last element is always worth one match. */
  lemma {:induction false} LcsOfSharedElement<T>(a: seq<T>, b: seq<T>, i: nat, j: nat)
    requires i < |a| && j < |b| && a[i] == b[j]
    ensures Lcs(a, b) >= 1
    decreases |a| + |b|
  {
    if a[0] != b[0] {
      if i > 0 {
        LcsOfSharedElement(a[1..], b, i - 1, j);
      } else {
        LcsOfSharedElement(a, b[1..], i, j - 1);
      }
    }
  }

  lemma {:induction false} LcsOfDisjoint<T>(a: seq<T>, b: seq<T>)
    requires forall x :: x in a ==> x !in b
    ensures Lcs(a, b) == 0
    decreases |a| + |b|
  {
    if a != [] && b != [] {
      assert a[0] in a && b[0] in b;
      LcsOfDisjoint(a[1..], b);
      LcsOfDisjoint(a, b[1..]);
    }
  }

  /** Row-major position of a cell; `width` is one more than the number of new lines. */
  function Cell(width: nat, row: nat, column: nat): nat {
    row * width + column
  }

  lemma CellInRange(width: nat, rows: nat, row: nat, column: nat)
    requires row < rows && column < width
    ensures Cell(width, row, column) < rows * width
  {
    assert (row + 1) * width <= rows * width;
  }

  lemma CellInjective(width: nat, row: nat, column: nat, row': nat, column': nat)
    requires column < width && column' < width && (row, column) != (row', column')
    ensures Cell(width, row, column) != Cell(width, row', column')
  {
    if row < row' {
      assert (row + 1) * width <= row' * width;
    } else if row' < row {
      assert (row' + 1) * width <= row * width;
    }
  }

  /** Every cell from (`row`, `column`) on in row-major order below and right holds its Lcs. */
  ghost predicate Filled<T>(table: seq<u32>, a: seq<T>, b: seq<T>, row: nat, column: nat)
    requires |table| == (|a| + 1) * (|b| + 1)
  {
    forall p: nat, q: nat {:trigger Cell(|b| + 1, p, q)} ::
      p <= |a| && q <= |b| && (p > row || (p == row && q >= column)) ==>
        Cell(|b| + 1, p, q) < |table| && table[Cell(|b| + 1, p, q)] as nat == Lcs(a[p..], b[q..])
  }

  /** Writing one cell of the current row extends the filled region by that cell. */
  lemma FillStep<T>(table: seq<u32>, a: seq<T>, b: seq<T>, row: nat, column: nat, value: u32)
    requires |table| == (|a| + 1) * (|b| + 1) && row < |a| && column < |b|
    requires Filled(table, a, b, row, column + 1)
    requires value as nat == Lcs(a[row..], b[column..])
    ensures Cell(|b| + 1, row, column) < |table|
    ensures Filled(table[Cell(|b| + 1, row, column) := value], a, b, row, column)
  {
    var width := |b| + 1;
    CellInRange(width, |a| + 1, row, column);
    var after := table[Cell(width, row, column) := value];
    forall p: nat, q: nat | p <= |a| && q <= |b| && (p > row || (p == row && q >= column))
      ensures Cell(width, p, q) < |after| && after[Cell(width, p, q)] as nat == Lcs(a[p..], b[q..])
    {
      CellInRange(width, |a| + 1, p, q);
      if (p, q) != (row, column) {
        CellInjective(width, p, q, row, column);
      }
    }
  }

  /** The three cells the recurrence reads are in range and already final. */
  lemma FillReads<T>(table: seq<u32>, a: seq<T>, b: seq<T>, row: nat, column: nat)
    requires |table| == (|a| + 1) * (|b| + 1) && row < |a| && column < |b|
    requires Filled(table, a, b, row, column + 1)
    ensures Cell(|b| + 1, row, column) < |table|
    ensures Cell(|b| + 1, row + 1, column + 1) < |table| && Cell(|b| + 1, row + 1, column) < |table|
    ensures Cell(|b| + 1, row, column + 1) < |table|
    ensures table[Cell(|b| + 1, row + 1, column + 1)] as nat == Lcs(a[row..][1..], b[column..][1..])
    ensures table[Cell(|b| + 1, row + 1, column)] as nat == Lcs(a[row..][1..], b[column..])
    ensures table[Cell(|b| + 1, row, column + 1)] as nat == Lcs(a[row..], b[column..][1..])
  {
    CellInRange(|b| + 1, |a| + 1, row, column);
    assert a[row..][1..] == a[row + 1..] && b[column..][1..] == b[column + 1..];
  }

  /** Rows that need no work: the bottom row, and the last column of any row. */
  lemma FillBoundary<T>(table: seq<u32>, a: seq<T>, b: seq<T>, row: nat)
    requires |table| == (|a| + 1) * (|b| + 1) && row <= |a|
    requires row < |a| ==> Filled(table, a, b, row + 1, 0)
    requires forall q: nat {:trigger Cell(|b| + 1, row, q)} :: q <= |b| ==>
               Cell(|b| + 1, row, q) < |table| && table[Cell(|b| + 1, row, q)] == 0
    ensures Filled(table, a, b, row, if row == |a| then 0 else |b|)
  {
    forall p: nat, q: nat | p <= |a| && q <= |b| && (p > row || (p == row && q >= if row == |a| then 0 else |b|))
      ensures Cell(|b| + 1, p, q) < |table| && table[Cell(|b| + 1, p, q)] as nat == Lcs(a[p..], b[q..])
    {
    }
  }

  /** Fills the flat table bottom-up, exactly as the source does, in a buffer of `u32`. */
  method FillTable<T(==)>(a: seq<T>, b: seq<T>) returns (lcs: array<u32>)
    requires |a| < 0x1_0000_0000
    ensures fresh(lcs) && lcs.Length == (|a| + 1) * (|b| + 1)
    ensures Filled(lcs[..], a, b, 0, 0)
  {
    var width := |b| + 1;
    lcs := new u32[(|a| + 1) * width](_ => 0);
    var row: nat := |a|;
    forall p: nat, q: nat | p <= |a| && q <= |b| ensures Cell(width, p, q) < lcs.Length {
      CellInRange(width, |a| + 1, p, q);
    }
    FillBoundary(lcs[..], a, b, |a|);
    while row > 0
      invariant row <= |a|
      invariant Filled(lcs[..], a, b, row, 0)
      invariant forall p: nat, q: nat {:trigger Cell(width, p, q)} :: p < row && q <= |b| ==>
        lcs[Cell(width, p, q)] == 0
    {
      row := row - 1;
      var column: nat := |b|;
      FillBoundary(lcs[..], a, b, row);
      while column > 0
        invariant column <= |b|
        invariant Filled(lcs[..], a, b, row, column)
        invariant forall p: nat, q: nat {:trigger Cell(width, p, q)} :: p < row && q <= |b| ==>
          lcs[Cell(width, p, q)] == 0
      {
        column := column - 1;
        FillReads(lcs[..], a, b, row, column);
        LcsBound(a[row..], b[column..]);
        var value := if a[row] == b[column] then 1 + lcs[Cell(width, row + 1, column + 1)]
                     else if lcs[Cell(width, row + 1, column)] >= lcs[Cell(width, row, column + 1)]
                     then lcs[Cell(width, row + 1, column)] else lcs[Cell(width, row, column + 1)];
        FillStep(lcs[..], a, b, row, column, value);
        ghost var before := lcs[..];
        lcs[Cell(width, row, column)] := value;
        assert lcs[..] == before[Cell(width, row, column) := value];
        forall p: nat, q: nat | p < row && q <= |b| ensures lcs[Cell(width, p, q)] == 0 {
          CellInjective(width, p, q, row, column);
        }
      }
    }
  }
}
