/**
 * The owner of one pseudo-terminal: output chunks advance a generation, feed the terminal parser and
 * a bounded tail; snapshots are rendered once per state and cached; scrollback is paged by moving the
 * parser's view and putting it back.  What the terminal emulator makes of output or of a resize is a
 * parameter of each operation: any terminal it leaves behind is allowed.
 */
module PtyOwner {
  import opened Base

  const TAIL_LIMIT: nat := 64 * 1024
  const HISTORY_LIMIT: nat := 1000

  type Row = seq<byte>

  /** The parser's screen: retained history, current lines, and how far the view is scrolled back. */
  datatype Terminal = Terminal(
    history: seq<Row>, lines: seq<Row>, attributes: seq<byte>, cols: nat,
    cursorRow: nat, cursorCol: nat, offset: nat)
  {
    /** The emulator retains a bounded history and keeps its view inside it. */
    predicate Ok() { offset <= |history| <= HISTORY_LIMIT }

    function Rows(): nat { |lines| }

    /** `set_scrollback`: clamped to the retained history. */
    function Scrolled(n: nat): Terminal { this.(offset := Min(n, |history|)) }

    /** The rows on view: the history from the offset on, then the screen, as many as the screen has. */
    function View(): (r: seq<Row>)
      requires Ok()
      ensures |r| == |lines|
    {
      (history[|history| - offset..] + lines)[..|lines|]
    }
  }

  datatype Snapshot = Snapshot(
    generation: nat, rows: nat, cols: nat, screen: seq<Row>, cursorRow: nat, cursorCol: nat, tail: seq<byte>)

  /** The formatted redraw is determined by the rows on view and the cell attributes. */
  datatype RichSnapshot = RichSnapshot(
    generation: nat, rows: nat, cols: nat, screen: (seq<Row>, seq<byte>), cursorRow: nat, cursorCol: nat)

  function Render(generation: nat, t: Terminal, tail: seq<byte>): Snapshot
    requires t.Ok()
  {
    Snapshot(generation, t.Rows(), t.cols, t.View(), t.cursorRow, t.cursorCol, tail)
  }

  function RenderRich(generation: nat, t: Terminal): RichSnapshot
    requires t.Ok()
  {
    RichSnapshot(generation, t.Rows(), t.cols, (t.View(), t.attributes), t.cursorRow, t.cursorCol)
  }

  /** Row `i` of the screen, counted from the top of the view into the history. */
  function RowOnView(t: Terminal, i: nat): Row
    requires t.Ok() && i < |t.lines|
  {
    if i < t.offset then t.history[|t.history| - t.offset + i] else t.lines[i - t.offset]
  }

  /** Which coordinate of the terminal is which field of its snapshots, row by row. */
  lemma SnapshotFields(generation: nat, t: Terminal, tail: seq<byte>)
    requires t.Ok()
    ensures var s, rich := Render(generation, t, tail), RenderRich(generation, t);
            && s.generation == rich.generation == generation && s.rows == rich.rows == |t.lines| == |s.screen|
            && s.cols == rich.cols == t.cols && s.tail == tail && s.screen == rich.screen.0
            && s.cursorRow == rich.cursorRow == t.cursorRow && s.cursorCol == rich.cursorCol == t.cursorCol
            && (forall i :: 0 <= i < |t.lines| ==> s.screen[i] == RowOnView(t, i))
            && (t.offset == 0 ==> s.screen == t.lines)
  {
    assert t.offset == 0 ==> t.history[|t.history|..] + t.lines == t.lines;
  }

  /** The last `n` elements. */
  function Last<T>(s: seq<T>, n: nat): seq<T> {
    if |s| <= n then s else s[|s| - n..]
  }

  /** Keeping only the last bytes after every chunk loses nothing that the last bytes of everything need. */
  lemma LastOfLast<T>(s: seq<T>, t: seq<T>, n: nat)
    ensures Last(Last(s, n) + t, n) == Last(s + t, n)
  {}

  /** One page of history: with the view scrolled back by `remaining`, its first rows are that part of the history. */
  lemma PageIsHistory(t: Terminal, remaining: nat, take: nat)
    requires t.Ok() && take <= remaining <= |t.history| && take <= |t.lines|
    ensures t.Scrolled(remaining).View()[..take]
         == t.history[|t.history| - remaining..|t.history| - remaining + take]
  {
    var view, from := t.Scrolled(remaining).View(), t.history[|t.history| - remaining..];
    assert view[..take] == (from + t.lines)[..take] == from[..take];
  }

  /** Dropping bytes from the front until the limit is met. */
  method TrimFront(tail: seq<byte>) returns (r: seq<byte>)
    ensures r == Last(tail, TAIL_LIMIT)
  {
    r := tail;
    while |r| > TAIL_LIMIT
      invariant Last(r, TAIL_LIMIT) == Last(tail, TAIL_LIMIT)
      decreases |r|
    {
      r := r[1..];
    }
  }

  /** The rows of the pages, oldest first; the view is moved once per page. */
  method CollectPages(t: Terminal, requested: nat) returns (lines: seq<Row>, moved: Terminal)
    requires t.Ok() && requested <= |t.history|
    ensures lines == if t.Rows() == 0 then [] else t.history[|t.history| - requested..]
    ensures moved.Ok() && moved == t.(offset := moved.offset)
  {
    var pageRows := Max(t.Rows(), 1);
    var remaining: nat := requested;
    var n := |t.history|;
    lines, moved := [], t;
    while remaining > 0
      invariant remaining <= requested
      invariant moved == t.(offset := moved.offset) && moved.Ok()
      invariant lines == if t.Rows() == 0 then [] else t.history[n - requested..n - remaining]
      decreases remaining
    {
      moved := moved.Scrolled(remaining);
      var take := Min(remaining, pageRows);
      if t.Rows() > 0 {
        PageIsHistory(t, remaining, take);
      }
      lines := lines + moved.View()[..Min(take, |moved.View()|)];
      remaining := remaining - take;
    }
  }

  class PtyState {
    const startGeneration: nat
    var generation: nat
    var tail: seq<byte>
    var parser: Terminal
    var snapshotCache: Option<Snapshot>
    var richCache: Option<RichSnapshot>
    var snapshotHits: nat
    var snapshotRenders: nat
    var richHits: nat
    var richRenders: nat

    /** The number of chunks read so far, and their concatenation. */
    ghost var chunks: nat
    ghost var output: seq<byte>

    ghost predicate Valid()
      reads this
    {
      && parser.Ok()
      && generation == startGeneration + chunks
      && tail == Last(output, TAIL_LIMIT)
      && (snapshotCache.Some? ==> snapshotCache.value == Render(generation, parser, tail))
      && (richCache.Some? ==> richCache.value == RenderRich(generation, parser))
    }

    constructor (generation: nat, parser: Terminal)
      requires parser.Ok()
      ensures Valid() && startGeneration == this.generation == generation && this.parser == parser
      ensures output == [] && chunks == 0
    {
      this.startGeneration, this.generation, this.parser := generation, generation, parser;
      tail, snapshotCache, richCache := [], None, None;
      snapshotHits, snapshotRenders, richHits, richRenders := 0, 0, 0, 0;
      chunks, output := 0, [];
    }

    /** The reader thread's update for one chunk of output, which takes the emulator to `after`. */
    method Read(chunk: seq<byte>, after: Terminal)
      requires Valid() && after.Ok()
      modifies this
      ensures Valid()
      ensures generation == old(generation) + 1 && chunks == old(chunks) + 1 && output == old(output) + chunk
      ensures parser == after && snapshotCache == None && richCache == None
      ensures snapshotHits == old(snapshotHits) && snapshotRenders == old(snapshotRenders)
      ensures richHits == old(richHits) && richRenders == old(richRenders)
    {
      LastOfLast(output, chunk, TAIL_LIMIT);
      generation, chunks := generation + 1, chunks + 1;
      parser := after;
      tail := TrimFront(tail + chunk);
      output := output + chunk;
      snapshotCache, richCache := None, None;
    }

    /** `resize`: the screen changes, the generation does not. */
    method Resize(after: Terminal)
      requires Valid() && after.Ok()
      modifies this`parser, this`snapshotCache, this`richCache
      ensures Valid() && parser == after && snapshotCache == None && richCache == None
    {
      parser := after;
      snapshotCache, richCache := None, None;
    }

    /** `snapshot`: cached or not, the result is a fresh render of the current state. */
    method GetSnapshot() returns (r: Snapshot)
      requires Valid()
      modifies this`snapshotCache, this`snapshotHits, this`snapshotRenders
      ensures Valid() && r == Render(generation, parser, tail) && snapshotCache == Some(r)
      ensures snapshotHits + snapshotRenders == old(snapshotHits + snapshotRenders) + 1
      ensures snapshotRenders == old(snapshotRenders) <==> old(snapshotCache).Some?
    {
      if snapshotCache.Some? {
        snapshotHits := snapshotHits + 1;
        return snapshotCache.value;
      }
      snapshotRenders := snapshotRenders + 1;
      r := Snapshot(generation, parser.Rows(), parser.cols, parser.View(), parser.cursorRow, parser.cursorCol, tail);
      snapshotCache := Some(r);
    }

    /** `rich_snapshot`. */
    method GetRichSnapshot() returns (r: RichSnapshot)
      requires Valid()
      modifies this`richCache, this`richHits, this`richRenders
      ensures Valid() && r == RenderRich(generation, parser) && richCache == Some(r)
      ensures richHits + richRenders == old(richHits + richRenders) + 1
      ensures richRenders == old(richRenders) <==> old(richCache).Some?
    {
      if richCache.Some? {
        richHits := richHits + 1;
        return richCache.value;
      }
      richRenders := richRenders + 1;
      r := RichSnapshot(generation, parser.Rows(), parser.cols, (parser.View(), parser.attributes),
                        parser.cursorRow, parser.cursorCol);
      richCache := Some(r);
    }

    /**
     * `parser_scrollback`: the newest rows of the history, oldest first, with the view put back.  A
     * terminal with no rows shows nothing to page through, so it yields no lines.
     */
    method ParserScrollback(maxLines: nat) returns (lines: seq<Row>)
      requires Valid()
      modifies this`parser
      ensures Valid() && parser == old(parser)
      ensures lines == if parser.Rows() == 0 then [] else Last(parser.history, maxLines)
    {
      var originalOffset := parser.offset;
      parser := parser.Scrolled(U64_MAX);
      var requested := Min(parser.offset, maxLines);
      if requested == 0 {
        parser := parser.Scrolled(originalOffset);
        return [];
      }
      var moved;
      lines, moved := CollectPages(parser, requested);
      parser := moved;
      parser := parser.Scrolled(originalOffset);
    }
  }

  // ---------- any interleaving ----------

  datatype Op =
    | ReadOp(chunk: seq<byte>, after: Terminal)
    | ResizeOp(after: Terminal)
    | SnapshotOp
    | RichOp
    | ScrollbackOp(maxLines: nat)

  predicate OpOk(op: Op) { op.ReadOp? || op.ResizeOp? ==> op.after.Ok() }

  function OutputOf(ops: seq<Op>): seq<byte> {
    if ops == [] then []
    else OutputOf(ops[..|ops| - 1]) + if ops[|ops| - 1].ReadOp? then ops[|ops| - 1].chunk else []
  }

  function ReadsIn(ops: seq<Op>): nat {
    if ops == [] then 0 else ReadsIn(ops[..|ops| - 1]) + if ops[|ops| - 1].ReadOp? then 1 else 0
  }

  /** The terminal after the operations: only output and resizes change it. */
  function TerminalAfter(t: Terminal, ops: seq<Op>): Terminal {
    if ops == [] then t
    else if ops[|ops| - 1].ReadOp? || ops[|ops| - 1].ResizeOp? then ops[|ops| - 1].after
    else TerminalAfter(t, ops[..|ops| - 1])
  }

  /** The plain snapshot after the operations. */
  function SnapshotAfter(generation: nat, t: Terminal, ops: seq<Op>): Snapshot
    requires TerminalAfter(t, ops).Ok()
  {
    Render(generation + ReadsIn(ops), TerminalAfter(t, ops), Last(OutputOf(ops), TAIL_LIMIT))
  }

  /**
   * After any interleaving of output, resizes, snapshots and scrollback queries: the generation counts
   * the chunks, the tail is the end of all output, reading never disturbs the terminal, and both kinds of
   * snapshot are what a fresh render would give.
   */
  method Drive(generation: nat, parser: Terminal, ops: seq<Op>) returns (plain: Snapshot, rich: RichSnapshot)
    requires parser.Ok() && forall i :: 0 <= i < |ops| ==> OpOk(ops[i])
    ensures TerminalAfter(parser, ops).Ok()
    ensures plain == SnapshotAfter(generation, parser, ops)
    ensures rich == RenderRich(generation + ReadsIn(ops), TerminalAfter(parser, ops))
  {
    var p := new PtyState(generation, parser);
    for i := 0 to |ops|
      invariant p.Valid() && p.startGeneration == generation
      invariant p.chunks == ReadsIn(ops[..i]) && p.output == OutputOf(ops[..i])
      invariant p.parser == TerminalAfter(parser, ops[..i])
    {
      assert ops[..i + 1][..i] == ops[..i];
      assert OpOk(ops[i]);
      match ops[i]
      case ReadOp(chunk, after) => p.Read(chunk, after);
      case ResizeOp(after) => p.Resize(after);
      case SnapshotOp => var _ := p.GetSnapshot();
      case RichOp => var _ := p.GetRichSnapshot();
      case ScrollbackOp(maxLines) => var _ := p.ParserScrollback(maxLines);
    }
    assert ops[..|ops|] == ops;
    plain := p.GetSnapshot();
    rich := p.GetRichSnapshot();
  }
}
