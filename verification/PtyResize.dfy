/**
 * A terminal resized away and back within one generation, followed from its owner to a client: the owner
 * shows two screens under one generation, and a later delta lands on the wrong one.
 */
module PtyResize {
  import opened Base
  import PtyOwner
  import PtyScreen

  /** The plain screen a snapshot carries. */
  function ScreenOf(s: PtyOwner.Snapshot): PtyScreen.Screen {
    PtyScreen.Screen(s.generation, s.rows, s.cols, s.screen, s.cursorRow, s.cursorCol)
  }

  /** What `set_size` does to a row of single-column text: a narrower row is cut off for good. */
  function Cut(row: seq<byte>, cols: nat): seq<byte> { row[..Min(|row|, cols)] }

  /** A change of width alone. */
  function SetCols(t: PtyOwner.Terminal, cols: nat): PtyOwner.Terminal {
    t.(lines := seq(|t.lines|, i requires 0 <= i < |t.lines| => Cut(t.lines[i], cols)), cols := cols)
  }

  /** A screen of two rows without history. */
  function TwoRows(x: seq<byte>, y: seq<byte>, cols: nat): PtyOwner.Terminal {
    PtyOwner.Terminal([], [x, y], [], cols, 0, 0, 0)
  }

  lemma TwoRowsCut(x: seq<byte>, y: seq<byte>, cols: nat, narrower: nat)
    ensures SetCols(TwoRows(x, y, cols), narrower) == TwoRows(Cut(x, narrower), Cut(y, narrower), narrower)
  {}

  lemma TwoRowsScreen(generation: nat, x: seq<byte>, y: seq<byte>, tail: seq<byte>)
    ensures TwoRows(x, y, 80).Ok()
    ensures ScreenOf(PtyOwner.Render(generation, TwoRows(x, y, 80), tail)) ==
              PtyScreen.Screen(generation, 2, 80, [x, y], 0, 0)
  {
    assert ([] + [x, y])[..2] == [x, y];
  }

  /** To one column and back, with no output in between. */
  function AwayAndBack(t: PtyOwner.Terminal): seq<PtyOwner.Op> {
    [PtyOwner.ResizeOp(SetCols(t, 1)), PtyOwner.ResizeOp(SetCols(SetCols(t, 1), t.cols))]
  }

  lemma AfterAwayAndBack(t: PtyOwner.Terminal)
    ensures PtyOwner.TerminalAfter(t, AwayAndBack(t)) == SetCols(SetCols(t, 1), t.cols)
    ensures PtyOwner.ReadsIn(AwayAndBack(t)) == 0
  {
    ResizesReadNothing(AwayAndBack(t));
  }

  lemma {:induction false} ResizesReadNothing(ops: seq<PtyOwner.Op>)
    requires forall i :: 0 <= i < |ops| ==> ops[i].ResizeOp?
    ensures PtyOwner.ReadsIn(ops) == 0
  {
    if ops != [] {
      ResizesReadNothing(ops[..|ops| - 1]);
    }
  }

  lemma AfterOutput(t: PtyOwner.Terminal, ops: seq<PtyOwner.Op>, chunk: seq<byte>, next: PtyOwner.Terminal)
    ensures PtyOwner.TerminalAfter(t, ops + [PtyOwner.ReadOp(chunk, next)]) == next
    ensures PtyOwner.ReadsIn(ops + [PtyOwner.ReadOp(chunk, next)]) == PtyOwner.ReadsIn(ops) + 1
  {
    assert (ops + [PtyOwner.ReadOp(chunk, next)])[..|ops|] == ops;
  }

  /** After the operations, from generation 1 on, the owner shows the screen. */
  predicate Shows(t: PtyOwner.Terminal, ops: seq<PtyOwner.Op>, s: PtyScreen.Screen) {
    PtyOwner.TerminalAfter(t, ops).Ok() && ScreenOf(PtyOwner.SnapshotAfter(1, t, ops)) == s
  }

  /** A screen of two rows and 80 columns. */
  function TwoRowScreen(generation: nat, x: seq<byte>, y: seq<byte>): PtyScreen.Screen {
    PtyScreen.Screen(generation, 2, 80, [x, y], 0, 0)
  }

  /**
   * Two resizes with no output between them: the owner shows screens of equal generation and geometry with
   * different rows, and the next output is one generation on.
   */
  lemma ResizeAwayAndBack(x: seq<byte>, chunk: seq<byte>, z: seq<byte>)
    requires 2 <= |x| <= 80
    ensures var t, y := TwoRows(x, x, 80), x[..1];
            && Shows(t, [], TwoRowScreen(1, x, x))
            && Shows(t, AwayAndBack(t), TwoRowScreen(1, y, y))
            && Shows(t, AwayAndBack(t) + [PtyOwner.ReadOp(chunk, TwoRows(y, z, 80))], TwoRowScreen(2, y, z))
  {
    var t, y := TwoRows(x, x, 80), x[..1];
    var resized := AwayAndBack(t);
    var written := resized + [PtyOwner.ReadOp(chunk, TwoRows(y, z, 80))];
    TwoRowsCut(x, x, 80, 1);
    TwoRowsCut(y, y, 1, 80);
    assert Cut(x, 1) == y && Cut(y, 80) == y;
    AfterAwayAndBack(t);
    AfterOutput(t, resized, chunk, TwoRows(y, z, 80));
    TwoRowsScreen(1, x, x, PtyOwner.Last(PtyOwner.OutputOf([]), PtyOwner.TAIL_LIMIT));
    TwoRowsScreen(1, y, y, PtyOwner.Last(PtyOwner.OutputOf(resized), PtyOwner.TAIL_LIMIT));
    TwoRowsScreen(2, y, z, PtyOwner.Last(PtyOwner.OutputOf(written), PtyOwner.TAIL_LIMIT));
  }

  /** A client in session 7 that gets two full screens and the delta from the second to a third. */
  function HeldAfter(before: PtyScreen.Screen, after: PtyScreen.Screen, later: PtyScreen.Screen)
    : Option<PtyScreen.Screen>
    requires |after.lines| == |later.lines|
  {
    var delta := PtyScreen.DeltaFrom(7, after, later);
    var messages := [PtyScreen.PlainDatagram(7, before), PtyScreen.PlainDatagram(7, after),
                     PtyScreen.DeltaDatagram(delta)];
    PtyScreen.HandleAll(PtyScreen.Client(7, true, 0, None, []), messages).plain
  }

  lemma HeldIsMixed(x: seq<byte>, y: seq<byte>, z: seq<byte>)
    requires x != y && y != z && |x| <= 80 && |y| <= 80 && |z| <= PtyScreen.MAX_ROW_BYTES
    ensures HeldAfter(TwoRowScreen(1, x, x), TwoRowScreen(1, y, y), TwoRowScreen(2, y, z))
         == Some(TwoRowScreen(2, x, z))
  {
    var before, after, later := TwoRowScreen(1, x, x), TwoRowScreen(1, y, y), TwoRowScreen(2, y, z);
    PtyScreen.ConfusedClient(PtyScreen.Client(7, true, 0, None, []), before, after, later);
    assert PtyScreen.MixedRows([x, x], [y, y], [y, z]) == [x, z];
  }

  /** Before the output every screen has generation 1. */
  lemma ShownBeforeOutput(t: PtyOwner.Terminal, op: PtyOwner.Op, k: nat, s: PtyScreen.Screen)
    requires k <= 2 && Shows(t, (AwayAndBack(t) + [op])[..k], s)
    ensures s.generation == 1
  {
    ResizesReadNothing((AwayAndBack(t) + [op])[..k]);
  }

  predicate NeverShown(t: PtyOwner.Terminal, ops: seq<PtyOwner.Op>, s: PtyScreen.Screen) {
    forall k :: 0 <= k <= |ops| ==> !Shows(t, ops[..k], s)
  }

  lemma MixedIsNeverShown(x: seq<byte>, chunk: seq<byte>, z: seq<byte>)
    requires 2 <= |x| <= 80
    ensures var t, y := TwoRows(x, x, 80), x[..1];
            NeverShown(t, AwayAndBack(t) + [PtyOwner.ReadOp(chunk, TwoRows(y, z, 80))], TwoRowScreen(2, x, z))
  {
    var t, y, held := TwoRows(x, x, 80), x[..1], TwoRowScreen(2, x, z);
    var op := PtyOwner.ReadOp(chunk, TwoRows(y, z, 80));
    var ops := AwayAndBack(t) + [op];
    ResizeAwayAndBack(x, chunk, z);
    assert [x, z][0] != [y, z][0];
    forall k | 0 <= k <= |ops| ensures !Shows(t, ops[..k], held) {
      if k <= 2 {
        if Shows(t, ops[..k], held) {
          ShownBeforeOutput(t, op, k, held);
        }
      } else {
        assert ops[..k] == ops;
      }
    }
  }

  /**
   * A client of that owner which gets its first two screens and the delta from the second to the third ends
   * on a screen the owner never showed.
   */
  lemma ResizeBreaksScreen(x: seq<byte>, chunk: seq<byte>, z: seq<byte>)
    requires 2 <= |x| <= 80 && |z| <= PtyScreen.MAX_ROW_BYTES && z != x[..1]
    ensures var t, y := TwoRows(x, x, 80), x[..1];
            var before, after, later := TwoRowScreen(1, x, x), TwoRowScreen(1, y, y), TwoRowScreen(2, y, z);
            && Shows(t, [], before) && Shows(t, AwayAndBack(t), after)
            && Shows(t, AwayAndBack(t) + [PtyOwner.ReadOp(chunk, TwoRows(y, z, 80))], later)
            && HeldAfter(before, after, later) == Some(TwoRowScreen(2, x, z))
            && NeverShown(t, AwayAndBack(t) + [PtyOwner.ReadOp(chunk, TwoRows(y, z, 80))], TwoRowScreen(2, x, z))
  {
    var y := x[..1];
    assert |x| != |y|;
    ResizeAwayAndBack(x, chunk, z);
    HeldIsMixed(x, y, z);
    MixedIsNeverShown(x, chunk, z);
  }
}
