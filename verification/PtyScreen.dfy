/**
 * Replaceable PTY screens: the server derives row deltas between two snapshots, the client applies
 * them to the screen it holds, over datagrams that may be lost, repeated and reordered (section 5
 * of RFC 9221).
 */
module PtyScreen {
  import opened Base

  const MAX_ROW_BYTES: nat := 64 * 1024

  /** A plain screen: what the client keeps, and what a snapshot or full datagram carries. */
  datatype Screen = Screen(generation: nat, rows: nat, cols: nat, lines: seq<seq<byte>>, cursorRow: nat, cursorCol: nat)

  datatype Change<T> = RowDelta(row: nat, text: T)

  /** One changed row of a screen. */
  type RowDelta = Change<seq<byte>>

  datatype Delta = Delta(
    session: nat, base: nat, generation: nat, rows: nat, cols: nat,
    changes: seq<RowDelta>, cursorRow: nat, cursorCol: nat)

  // ---------- the server's side ----------

  /** The rows below `k` in which the two screens differ, in order. */
  function ChangedRows<T(==)>(from: seq<T>, to: seq<T>, k: nat): (r: seq<Change<T>>)
    requires k <= |from| == |to|
    ensures forall i :: 0 <= i < |r| ==> r[i].row < k
  {
    if k == 0 then []
    else ChangedRows(from, to, k - 1) + if from[k - 1] != to[k - 1] then [RowDelta(k - 1, to[k - 1])] else []
  }

  /** `derive_pty_row_deltas`. */
  function DeriveRowDeltas(previous: Screen, snapshot: Screen): Option<seq<RowDelta>> {
    if || previous.generation >= snapshot.generation || previous.rows != snapshot.rows
       || previous.cols != snapshot.cols || |previous.lines| != |snapshot.lines|
    then None
    else Some(ChangedRows(previous.lines, snapshot.lines, |snapshot.lines|))
  }

  /** Only changed rows, in strict order, with their new text. */
  lemma {:induction false} ChangedRowsOrdered<T>(from: seq<T>, to: seq<T>, k: nat)
    requires k <= |from| == |to|
    ensures var r := ChangedRows(from, to, k);
            && |r| <= k
            && (forall i :: 0 <= i < |r| ==> r[i].text == to[r[i].row] != from[r[i].row])
            && (forall i :: 0 < i < |r| ==> r[i - 1].row < r[i].row)
  {
    if k > 0 {
      ChangedRowsOrdered(from, to, k - 1);
    }
  }

  // ---------- the client's side ----------

  /** The geometry and base checks of `apply_delta`. */
  predicate Fits(s: Screen, d: Delta) {
    && d.base == s.generation && d.generation > d.base && d.rows == s.rows && d.cols == s.cols
    && |d.changes| <= |s.lines|
  }

  predicate RowOk(s: Screen, d: Delta, i: nat)
    requires i < |d.changes|
  {
    && d.changes[i].row < s.rows && d.changes[i].row < |s.lines| && |d.changes[i].text| <= MAX_ROW_BYTES
    && (i > 0 ==> d.changes[i - 1].row < d.changes[i].row)
  }

  predicate Accepts(s: Screen, d: Delta) {
    Fits(s, d) && forall i :: 0 <= i < |d.changes| ==> RowOk(s, d, i)
  }

  predicate RowsFit<T>(lines: seq<T>, changes: seq<Change<T>>) {
    forall i :: 0 <= i < |changes| ==> changes[i].row < |lines|
  }

  lemma AcceptedRowsFit(s: Screen, d: Delta)
    requires Accepts(s, d)
    ensures RowsFit(s.lines, d.changes)
  {
    forall i | 0 <= i < |d.changes| ensures d.changes[i].row < |s.lines| {
      assert RowOk(s, d, i);
    }
  }

  function ApplyRows<T>(lines: seq<T>, changes: seq<Change<T>>): (r: seq<T>)
    requires RowsFit(lines, changes)
    ensures |r| == |lines|
  {
    if changes == [] then lines
    else
      var last := changes[|changes| - 1];
      ApplyRows(lines, changes[..|changes| - 1])[last.row := last.text]
  }

  /** The screen after an accepted delta. */
  function Applied(s: Screen, d: Delta): Screen
    requires Accepts(s, d)
  {
    AcceptedRowsFit(s, d);
    Screen(d.generation, s.rows, s.cols, ApplyRows(s.lines, d.changes), d.cursorRow, d.cursorCol)
  }

  class PlainPtyScreenState {
    var generation: nat
    var rows: nat
    var cols: nat
    var screen: seq<seq<byte>>
    var cursorRow: nat
    var cursorCol: nat

    function Value(): Screen
      reads this
    {
      Screen(generation, rows, cols, screen, cursorRow, cursorCol)
    }

    constructor FromSnapshot(s: Screen)
      ensures Value() == s
    {
      generation, rows, cols, screen := s.generation, s.rows, s.cols, s.lines;
      cursorRow, cursorCol := s.cursorRow, s.cursorCol;
    }

    /** `apply_delta`: all checks come before the first write, so a rejected delta changes nothing. */
    method ApplyDelta(d: Delta) returns (r: Option<bool>)
      modifies this
      ensures r.Some? <==> old(Accepts(Value(), d))
      ensures r.None? ==> Value() == old(Value())
      ensures r.Some? ==> Value() == Applied(old(Value()), d)
      ensures r.Some? ==>
                (r.value <==> d.changes != [] || old(cursorRow) != d.cursorRow || old(cursorCol) != d.cursorCol)
    {
      if !Fits(Value(), d) {
        return None;
      }
      var previous: Option<nat> := None;
      for i := 0 to |d.changes|
        invariant forall k :: 0 <= k < i ==> RowOk(Value(), d, k)
        invariant previous == if i == 0 then None else Some(d.changes[i - 1].row)
      {
        var change := d.changes[i];
        if || change.row >= rows || change.row >= |screen| || |change.text| > MAX_ROW_BYTES
           || (previous.Some? && change.row <= previous.value)
        {
          assert !RowOk(Value(), d, i);
          return None;
        }
        previous := Some(change.row);
      }
      AcceptedRowsFit(Value(), d);
      for i := 0 to |d.changes|
        invariant RowsFit(old(screen), d.changes)
        invariant screen == ApplyRows(old(screen), d.changes[..i])
        invariant generation == old(generation) && rows == old(rows) && cols == old(cols)
        invariant cursorRow == old(cursorRow) && cursorCol == old(cursorCol)
      {
        assert d.changes[..i + 1][..i] == d.changes[..i];
        screen := screen[d.changes[i].row := d.changes[i].text];
      }
      assert d.changes[..|d.changes|] == d.changes;
      var changed := d.changes != [] || cursorRow != d.cursorRow || cursorCol != d.cursorCol;
      generation, cursorRow, cursorCol := d.generation, d.cursorRow, d.cursorCol;
      return Some(changed);
    }
  }

  // ---------- deriving and applying are inverse ----------

  /** One more row: it is overwritten exactly if it changed. */
  lemma ChangedRowsStep<T>(x: seq<T>, y: seq<T>, z: seq<T>, k: nat)
    requires 0 < k <= |x| == |y| == |z|
    ensures var before := ApplyRows(x, ChangedRows(y, z, k - 1));
            ApplyRows(x, ChangedRows(y, z, k)) == if y[k - 1] != z[k - 1] then before[k - 1 := z[k - 1]] else before
  {
    var before, change := ChangedRows(y, z, k - 1), RowDelta(k - 1, z[k - 1]);
    if y[k - 1] != z[k - 1] {
      assert ChangedRows(y, z, k) == before + [change];
      ApplyRowsPush(x, before, change);
    } else {
      assert ChangedRows(y, z, k) == before + [] == before;
    }
  }

  /** The same row by row, without the list of changes. */
  function RowsAfter<T(==)>(x: seq<T>, y: seq<T>, z: seq<T>, k: nat): (r: seq<T>)
    requires k <= |x| == |y| == |z|
    ensures |r| == |x|
    ensures forall i :: 0 <= i < |x| ==> r[i] == if i < k && y[i] != z[i] then z[i] else x[i]
  {
    if k == 0 then x
    else
      var before := RowsAfter(x, y, z, k - 1);
      if y[k - 1] != z[k - 1] then before[k - 1 := z[k - 1]] else before
  }

  /** What the changes from `y` to `z` make of `x`. */
  lemma {:induction false} ChangedRowsOnto<T>(x: seq<T>, y: seq<T>, z: seq<T>, k: nat)
    requires k <= |x| == |y| == |z|
    ensures ApplyRows(x, ChangedRows(y, z, k)) == RowsAfter(x, y, z, k)
  {
    if k > 0 {
      ChangedRowsStep(x, y, z, k);
      ChangedRowsOnto(x, y, z, k - 1);
    }
  }

  /** Applying the changed rows below `k` replaces exactly the lines below `k`. */
  lemma ChangedRowsApply<T>(from: seq<T>, to: seq<T>, k: nat)
    requires k <= |from| == |to|
    ensures forall i :: 0 <= i < |from| ==>
              ApplyRows(from, ChangedRows(from, to, k))[i] == if i < k then to[i] else from[i]
  {
    ChangedRowsOnto(from, from, to, k);
  }

  lemma ApplyRowsPush<T>(lines: seq<T>, changes: seq<Change<T>>, change: Change<T>)
    requires RowsFit(lines, changes) && change.row < |lines|
    ensures ApplyRows(lines, changes + [change]) == ApplyRows(lines, changes)[change.row := change.text]
  {
    assert (changes + [change])[..|changes|] == changes;
  }

  /** A screen as the PTY owner produces it: one line per `u16` row, rows that fit the row bound. */
  predicate WellFormed(s: Screen) {
    |s.lines| == s.rows <= 0xFFFF && forall i :: 0 <= i < |s.lines| ==> |s.lines[i]| <= MAX_ROW_BYTES
  }

  /** The delta datagram the server sends between two snapshots. */
  predicate IsDeltaBetween(d: Delta, previous: Screen, snapshot: Screen) {
    && DeriveRowDeltas(previous, snapshot) == Some(d.changes)
    && d.base == previous.generation && d.generation == snapshot.generation
    && d.rows == snapshot.rows && d.cols == snapshot.cols
    && d.cursorRow == snapshot.cursorRow && d.cursorCol == snapshot.cursorCol
  }

  /** A client that holds exactly the base accepts the delta and then holds exactly the new snapshot. */
  lemma DeltaRoundTrip(d: Delta, previous: Screen, snapshot: Screen)
    requires WellFormed(previous) && WellFormed(snapshot) && IsDeltaBetween(d, previous, snapshot)
    ensures Accepts(previous, d) && Applied(previous, d) == snapshot
  {
    ChangedRowsApply(previous.lines, snapshot.lines, |snapshot.lines|);
    ChangedRowsOrdered(previous.lines, snapshot.lines, |snapshot.lines|);
    assert ApplyRows(previous.lines, d.changes) == snapshot.lines;
    assert forall i :: 0 <= i < |d.changes| ==> RowOk(previous, d, i);
  }

  // ---------- the attachment ----------

  datatype Message =
    | PtyOutput(generation: nat)
    | PtyReady(screen: Screen)
    | PtyReadyRich(generation: nat)
    | DeltaDatagram(delta: Delta)
    | RichDatagram(session: nat, generation: nat)
    | PlainDatagram(session: nat, screen: Screen)

  /** One attachment: its generation guard, its plain base, and the generations it has painted. */
  datatype Client = Client(session: nat, deltas: bool, newest: nat, plain: Option<Screen>, painted: seq<nat>)

  /** Install a full plain screen if it is strictly newer. */
  function InstallPlain(c: Client, s: Screen): Client {
    if s.generation <= c.newest then c
    else c.(newest := s.generation, plain := Some(s), painted := c.painted + [s.generation])
  }

  /** The dispatch of `shell`. */
  function Handle(c: Client, m: Message): Client {
    match m
    case PtyOutput(g) => if g <= c.newest then c else c.(newest := g)
    case PtyReady(s) => InstallPlain(c, s)
    case PtyReadyRich(g) =>
      if g <= c.newest then c else c.(newest := g, plain := None, painted := c.painted + [g])
    case DeltaDatagram(d) =>
      if && c.deltas && d.session == c.session && d.generation >= c.newest
         && c.plain.Some? && Accepts(c.plain.value, d)
      then
        var s := c.plain.value;
        var changed := d.changes != [] || s.cursorRow != d.cursorRow || s.cursorCol != d.cursorCol;
        c.(newest := Max(c.newest, d.generation), plain := Some(Applied(c.plain.value, d)),
           painted := if changed then c.painted + [d.generation] else c.painted)
      else c
    case RichDatagram(session, g) =>
      if session == c.session && g > c.newest then c.(newest := g, painted := c.painted + [g]) else c
    case PlainDatagram(session, s) => if session == c.session then InstallPlain(c, s) else c
  }

  function HandleAll(c: Client, messages: seq<Message>): Client {
    if messages == [] then c
    else Handle(HandleAll(c, messages[..|messages| - 1]), messages[|messages| - 1])
  }

  /** A history in which a generation fixes the screen. */
  predicate History(h: nat -> Screen, generations: set<nat>) {
    forall g :: g in generations ==> h(g).generation == g && WellFormed(h(g))
  }

  /** The message carries a state, or a difference of two states, of the history. */
  predicate Drawn(h: nat -> Screen, generations: set<nat>, session: nat, m: Message) {
    match m
    case PtyReady(s) => s.generation in generations && s == h(s.generation)
    case PlainDatagram(id, s) => id == session ==> s.generation in generations && s == h(s.generation)
    case DeltaDatagram(d) =>
      d.session == session ==>
        d.base in generations && d.generation in generations && IsDeltaBetween(d, h(d.base), h(d.generation))
    case _ => true
  }

  predicate NonDecreasing(s: seq<nat>) { forall i, j :: 0 <= i < j < |s| ==> s[i] <= s[j] }

  /**
   * The screen held is the history's screen at its own generation, and nothing older is painted over
   * something newer.
   */
  predicate Faithful(h: nat -> Screen, generations: set<nat>, c: Client) {
    && (c.plain.Some? ==>
          && c.plain.value.generation in generations && c.plain.value == h(c.plain.value.generation)
          && c.plain.value.generation <= c.newest)
    && NonDecreasing(c.painted) && forall i :: 0 <= i < |c.painted| ==> c.painted[i] <= c.newest
  }

  lemma HandleKeepsFaithful(h: nat -> Screen, generations: set<nat>, c: Client, m: Message)
    requires History(h, generations) && Faithful(h, generations, c) && Drawn(h, generations, c.session, m)
    ensures Faithful(h, generations, Handle(c, m)) && Handle(c, m).newest >= c.newest
    ensures Handle(c, m).session == c.session && Handle(c, m).deltas == c.deltas
  {
    if m.DeltaDatagram? && m.delta.session == c.session && c.plain.Some? && Accepts(c.plain.value, m.delta) {
      DeltaRoundTrip(m.delta, h(m.delta.base), h(m.delta.generation));
    }
  }

  /** For every sequence of messages drawn from the history: lost, repeated or reordered makes no difference. */
  lemma {:induction false} ScreenFollowsHistory(h: nat -> Screen, generations: set<nat>, c: Client,
                                                messages: seq<Message>)
    requires History(h, generations) && Faithful(h, generations, c)
    requires forall m :: m in messages ==> Drawn(h, generations, c.session, m)
    ensures Faithful(h, generations, HandleAll(c, messages)) && HandleAll(c, messages).newest >= c.newest
    ensures HandleAll(c, messages).session == c.session && HandleAll(c, messages).deltas == c.deltas
  {
    if messages != [] {
      var n := |messages| - 1;
      ScreenFollowsHistory(h, generations, c, messages[..n]);
      assert messages[n] in messages;
      HandleKeepsFaithful(h, generations, HandleAll(c, messages[..n]), messages[n]);
    }
  }

  /**
   * A delta of the history has an effect exactly on a client that holds its base and has seen nothing
   * newer; every other client is left exactly as it was.
   */
  lemma DeltaAppliesExactly(h: nat -> Screen, generations: set<nat>, c: Client, d: Delta)
    requires History(h, generations) && Faithful(h, generations, c)
    requires d.session == c.session && Drawn(h, generations, c.session, DeltaDatagram(d))
    ensures Handle(c, DeltaDatagram(d)) != c <==> c.deltas && c.plain == Some(h(d.base)) && c.newest <= d.generation
    ensures Handle(c, DeltaDatagram(d)) != c ==> Handle(c, DeltaDatagram(d)).plain == Some(h(d.generation))
  {
    DeltaRoundTrip(d, h(d.base), h(d.generation));
  }

  /** The two screens look alike. */
  predicate SamePicture(x: Screen, y: Screen) {
    x.lines == y.lines && x.cursorRow == y.cursorRow && x.cursorCol == y.cursorCol
  }

  /** An applied delta is painted exactly when it changes what is seen. */
  lemma DeltaPaintsExactly(h: nat -> Screen, generations: set<nat>, c: Client, d: Delta)
    requires History(h, generations) && d.session == c.session && Drawn(h, generations, c.session, DeltaDatagram(d))
    requires Handle(c, DeltaDatagram(d)) != c && Faithful(h, generations, c)
    ensures Handle(c, DeltaDatagram(d)).painted
            == c.painted + if SamePicture(h(d.base), h(d.generation)) then [] else [d.generation]
  {
    DeltaAppliesExactly(h, generations, c, d);
    NoChangesExactly(h(d.base).lines, h(d.generation).lines, |h(d.generation).lines|);
    assert h(d.base).lines[..|h(d.base).lines|] == h(d.base).lines;
    assert h(d.generation).lines[..|h(d.generation).lines|] == h(d.generation).lines;
    assert c.painted + [] == c.painted;
  }

  lemma {:induction false} NoChangesExactly<T>(from: seq<T>, to: seq<T>, k: nat)
    requires k <= |to| == |from|
    ensures ChangedRows(from, to, k) == [] <==> from[..k] == to[..k]
  {
    if k > 0 {
      NoChangesExactly(from, to, k - 1);
      assert from[..k] == from[..k - 1] + [from[k - 1]] && to[..k] == to[..k - 1] + [to[k - 1]];
    }
  }

  // ---------- nothing newer is missed ----------

  function GenerationOf(m: Message): nat {
    match m
    case PtyOutput(g) => g
    case PtyReady(s) => s.generation
    case PtyReadyRich(g) => g
    case DeltaDatagram(d) => d.generation
    case RichDatagram(_, g) => g
    case PlainDatagram(_, s) => s.generation
  }

  /** A datagram of another session. */
  predicate Foreign(session: nat, m: Message) {
    match m
    case DeltaDatagram(d) => d.session != session
    case RichDatagram(id, _) => id != session
    case PlainDatagram(id, _) => id != session
    case _ => false
  }

  /** All the messages are foreign or announce older generations than `g`. */
  predicate AllOlder(session: nat, messages: seq<Message>, g: nat) {
    forall i :: 0 <= i < |messages| ==> Foreign(session, messages[i]) || GenerationOf(messages[i]) < g
  }

  lemma {:induction false} HandleAllConcat(c: Client, a: seq<Message>, b: seq<Message>)
    ensures HandleAll(c, a + b) == HandleAll(HandleAll(c, a), b)
    decreases |b|
  {
    if b == [] {
      assert a + b == a;
    } else {
      assert (a + b)[..|a + b| - 1] == a + b[..|b| - 1];
      HandleAllConcat(c, a, b[..|b| - 1]);
    }
  }

  lemma {:induction false} OlderStaysOlder(c: Client, messages: seq<Message>, g: nat)
    requires AllOlder(c.session, messages, g) && c.newest < g
    ensures HandleAll(c, messages).newest < g && HandleAll(c, messages).session == c.session
  {
    if messages != [] {
      OlderStaysOlder(c, messages[..|messages| - 1], g);
    }
  }

  lemma {:induction false} OlderChangesNothing(c: Client, messages: seq<Message>)
    requires AllOlder(c.session, messages, c.newest)
    ensures HandleAll(c, messages) == c
  {
    if messages != [] {
      OlderChangesNothing(c, messages[..|messages| - 1]);
    }
  }

  /** The generation is the client's newest, and what it paints last. */
  predicate ShowsLast(c: Client, g: nat) {
    c.newest == g && c.painted != [] && c.painted[|c.painted| - 1] == g
  }

  /** A newer full screen of either kind is painted; a plain one becomes the base, a rich attachment drops it. */
  lemma NewerScreenIsShown(c: Client, m: Message)
    requires GenerationOf(m) > c.newest && !Foreign(c.session, m) && !m.DeltaDatagram? && !m.PtyOutput?
    ensures ShowsLast(Handle(c, m), GenerationOf(m)) && Handle(c, m).session == c.session
    ensures m.PtyReady? || m.PlainDatagram? ==> Handle(c, m).plain == Some(m.screen)
    ensures m.PtyReadyRich? ==> Handle(c, m).plain.None?
    ensures m.RichDatagram? ==> Handle(c, m).plain == c.plain
  {}

  /** Wherever it arrives among the messages, the newest full screen is what a client ends up showing. */
  lemma NewestScreenIsShown(c: Client, before: seq<Message>, m: Message, after: seq<Message>)
    requires !Foreign(c.session, m) && !m.DeltaDatagram? && !m.PtyOutput? && GenerationOf(m) > c.newest
    requires AllOlder(c.session, before, GenerationOf(m)) && AllOlder(c.session, after, GenerationOf(m))
    ensures var r := HandleAll(c, before + [m] + after);
            && ShowsLast(r, GenerationOf(m))
            && (m.PtyReady? || m.PlainDatagram? ==> r.plain == Some(m.screen))
            && (m.PtyReadyRich? ==> r.plain.None?)
  {
    var d := HandleAll(c, before);
    OlderStaysOlder(c, before, GenerationOf(m));
    NewerScreenIsShown(d, m);
    assert (before + [m])[..|before|] == before;
    HandleAllConcat(c, before + [m], after);
    OlderChangesNothing(Handle(d, m), after);
  }

  /** In every run the client has reached the generation of every message of its own but the deltas. */
  lemma {:induction false} NothingNewerIsMissed(c: Client, messages: seq<Message>, i: nat)
    requires i < |messages| && !Foreign(c.session, messages[i]) && !messages[i].DeltaDatagram?
    ensures HandleAll(c, messages).newest >= GenerationOf(messages[i])
    ensures HandleAll(c, messages).session == c.session
  {
    var front, last := messages[..|messages| - 1], messages[|messages| - 1];
    SessionKept(c, front);
    if i < |front| {
      NothingNewerIsMissed(c, front, i);
    }
  }

  lemma {:induction false} SessionKept(c: Client, messages: seq<Message>)
    ensures HandleAll(c, messages).session == c.session
  {
    if messages != [] {
      SessionKept(c, messages[..|messages| - 1]);
    }
  }

  // ---------- recovery ----------

  /** Where a chain of deltas that starts at generation `from` ends. */
  function ChainEnd(from: nat, ds: seq<Delta>): nat {
    if ds == [] then from else ds[|ds| - 1].generation
  }

  /** Each delta starts from the generation the one before it led to. */
  predicate Chain(from: nat, ds: seq<Delta>) {
    forall i :: 0 <= i < |ds| ==> ds[i].base == ChainEnd(from, ds[..i])
  }

  function Datagrams(ds: seq<Delta>): seq<Message> {
    seq(|ds|, i requires 0 <= i < |ds| => DeltaDatagram(ds[i]))
  }

  predicate AllDrawn(h: nat -> Screen, generations: set<nat>, session: nat, ds: seq<Delta>) {
    forall i :: 0 <= i < |ds| ==> ds[i].session == session && Drawn(h, generations, session, DeltaDatagram(ds[i]))
  }

  /** A client at a delta's base moves to the screen it leads to. */
  lemma FreshDeltaApplies(h: nat -> Screen, generations: set<nat>, c: Client, d: Delta)
    requires History(h, generations) && Drawn(h, generations, c.session, DeltaDatagram(d)) && d.session == c.session
    requires c.deltas && c.newest == d.base && c.plain == Some(h(d.base))
    ensures var end := Handle(c, DeltaDatagram(d));
            end.plain == Some(h(d.generation)) && end.newest == d.generation && end.session == c.session && end.deltas
  {
    DeltaRoundTrip(d, h(d.base), h(d.generation));
  }

  lemma ChainFront(from: nat, ds: seq<Delta>)
    requires Chain(from, ds) && ds != []
    ensures Chain(from, ds[..|ds| - 1]) && ds[|ds| - 1].base == ChainEnd(from, ds[..|ds| - 1])
    ensures Datagrams(ds)[..|ds| - 1] == Datagrams(ds[..|ds| - 1])
  {
    var front := ds[..|ds| - 1];
    forall i | 0 <= i < |front| ensures front[i].base == ChainEnd(from, front[..i]) {
      assert front[..i] == ds[..i] && front[i] == ds[i];
    }
  }

  /** Deltas that arrive in order and without loss are all applied. */
  lemma {:induction false} ChainIsApplied(h: nat -> Screen, generations: set<nat>, c: Client, from: nat, ds: seq<Delta>)
    requires History(h, generations) && from in generations && c.deltas && c.newest == from && c.plain == Some(h(from))
    requires Chain(from, ds) && AllDrawn(h, generations, c.session, ds)
    ensures var end := HandleAll(c, Datagrams(ds));
            && end.plain == Some(h(ChainEnd(from, ds))) && end.newest == ChainEnd(from, ds)
            && end.session == c.session && end.deltas
  {
    if ds != [] {
      var front := ds[..|ds| - 1];
      ChainFront(from, ds);
      ChainIsApplied(h, generations, c, from, front);
      FreshDeltaApplies(h, generations, HandleAll(c, Datagrams(front)), ds[|ds| - 1]);
    }
  }

  /** From any state, a newer full screen followed by its deltas in order leads to the end of the chain. */
  lemma CheckpointRecovers(h: nat -> Screen, generations: set<nat>, c: Client, from: nat, ds: seq<Delta>)
    requires History(h, generations) && from in generations && from > c.newest && c.deltas
    requires Chain(from, ds) && AllDrawn(h, generations, c.session, ds)
    ensures HandleAll(Handle(c, PlainDatagram(c.session, h(from))), Datagrams(ds)).plain == Some(h(ChainEnd(from, ds)))
  {
    ChainIsApplied(h, generations, Handle(c, PlainDatagram(c.session, h(from))), from, ds);
  }

  lemma {:induction false} ChainAscends(h: nat -> Screen, generations: set<nat>, session: nat,
                                        from: nat, ds: seq<Delta>)
    requires History(h, generations) && from in generations
    requires Chain(from, ds) && AllDrawn(h, generations, session, ds)
    ensures ChainEnd(from, ds) in generations && ChainEnd(from, ds) >= from
    ensures ds != [] ==> ChainEnd(from, ds) > from && ds[|ds| - 1].base >= from
  {
    if ds != [] {
      ChainFront(from, ds);
      ChainAscends(h, generations, session, from, ds[..|ds| - 1]);
      var last := ds[|ds| - 1];
      assert Drawn(h, generations, session, DeltaDatagram(last));
      assert IsDeltaBetween(last, h(last.base), h(last.generation));
    }
  }

  /** The client's screen, if it has one, is older than the generation. */
  predicate Stale(c: Client, from: nat) { c.plain.Some? ==> c.plain.value.generation < from }

  /** A client without the base, or without deltas, lets a whole chain pass. */
  lemma {:induction false} ChainIsIgnored(h: nat -> Screen, generations: set<nat>, c: Client, from: nat, ds: seq<Delta>)
    requires History(h, generations) && from in generations && (Stale(c, from) || !c.deltas)
    requires Chain(from, ds) && AllDrawn(h, generations, c.session, ds)
    ensures HandleAll(c, Datagrams(ds)) == c
  {
    if ds != [] {
      ChainFront(from, ds);
      ChainIsIgnored(h, generations, c, from, ds[..|ds| - 1]);
      ChainAscends(h, generations, c.session, from, ds);
    }
  }

  /**
   * When the periodic full screen brings back a client that missed something, exactly: when no generation
   * as new has been seen, by whatever means.  Otherwise the client lets it and its deltas pass.
   */
  lemma StaleClientRecoversExactly(h: nat -> Screen, generations: set<nat>, c: Client, from: nat, ds: seq<Delta>)
    requires History(h, generations) && from in generations && Stale(c, from)
    requires Chain(from, ds) && AllDrawn(h, generations, c.session, ds)
    ensures var end := HandleAll(Handle(c, PlainDatagram(c.session, h(from))), Datagrams(ds));
            && (end.plain == Some(h(ChainEnd(from, ds))) <==> from > c.newest && (c.deltas || ds == []))
            && (from <= c.newest ==> end == c)
  {
    var c' := Handle(c, PlainDatagram(c.session, h(from)));
    ChainAscends(h, generations, c.session, from, ds);
    if from <= c.newest {
      ChainIsIgnored(h, generations, c, from, ds);
    } else if c.deltas {
      CheckpointRecovers(h, generations, c, from, ds);
    } else {
      ChainIsIgnored(h, generations, c', from, ds);
    }
  }

  /**
   * The server announces a generation on the reliable stream before it sends that generation's screen.  A
   * client that has read the announcement lets the screen pass, and every delta of its chain with it.
   */
  lemma AnnouncedScreenIsLost(h: nat -> Screen, generations: set<nat>, c: Client, announced: nat,
                              from: nat, ds: seq<Delta>)
    requires History(h, generations) && from in generations && Stale(c, from) && from <= announced
    requires Chain(from, ds) && AllDrawn(h, generations, c.session, ds)
    ensures var told := Handle(c, PtyOutput(announced));
            && HandleAll(Handle(told, PlainDatagram(c.session, h(from))), Datagrams(ds)) == told
            && told.plain == c.plain
  {
    StaleClientRecoversExactly(h, generations, Handle(c, PtyOutput(announced)), from, ds);
  }

  // ---------- the assumption is needed ----------

  predicate OneScreenPerGeneration(shown: set<Screen>) {
    forall x, y :: x in shown && y in shown && x.generation == y.generation ==> x == y
  }

  /** The message carries a shown screen, or the difference of two. */
  predicate DrawnFrom(shown: set<Screen>, session: nat, m: Message) {
    match m
    case PtyReady(s) => s in shown
    case PlainDatagram(id, s) => id == session ==> s in shown
    case DeltaDatagram(d) => d.session == session ==> exists x, y :: x in shown && y in shown && IsDeltaBetween(d, x, y)
    case _ => true
  }

  /** A client that has just attached to a shown screen. */
  function Attached(session: nat, deltas: bool, s: Screen): Client {
    Client(session, deltas, s.generation, Some(s), [])
  }

  /** The screen held is the one screen that was shown at its generation. */
  predicate OnShownScreen(shown: set<Screen>, c: Client) {
    c.plain.Some? ==>
      c.plain.value in shown && forall s :: s in shown && s.generation == c.plain.value.generation ==>
        s == c.plain.value
  }

  ghost function ScreenAt(shown: set<Screen>, g: nat): Screen {
    if s :| s in shown && s.generation == g then s else Screen(g, 0, 0, [], 0, 0)
  }

  lemma ScreenAtIs(shown: set<Screen>, s: Screen)
    requires OneScreenPerGeneration(shown) && s in shown
    ensures ScreenAt(shown, s.generation) == s
  {}

  /** One screen per generation is enough for every client to be on the shown screen of its generation. */
  lemma OneScreenPerGenerationSuffices(shown: set<Screen>, session: nat, deltas: bool, start: Screen,
                                       messages: seq<Message>)
    requires (forall s :: s in shown ==> WellFormed(s)) && OneScreenPerGeneration(shown) && start in shown
    requires forall m :: m in messages ==> DrawnFrom(shown, session, m)
    ensures OnShownScreen(shown, HandleAll(Attached(session, deltas, start), messages))
  {
    var h := (g: nat) => ScreenAt(shown, g);
    var generations := set s | s in shown :: s.generation;
    forall s | s in shown ensures h(s.generation) == s {
      ScreenAtIs(shown, s);
    }
    forall m | m in messages ensures Drawn(h, generations, session, m) {
      assert DrawnFrom(shown, session, m);
    }
    ScreenFollowsHistory(h, generations, Attached(session, deltas, start), messages);
  }

  // ---------- exactly when clients stay on shown screens ----------

  /** The rows of `x`, replaced where `y` and `z` differ. */
  function MixedRows<T(==)>(x: seq<T>, y: seq<T>, z: seq<T>): seq<T>
    requires |x| == |y| == |z|
  {
    seq(|x|, i requires 0 <= i < |x| => if y[i] == z[i] then x[i] else z[i])
  }

  /** What the delta from `y` to `z` makes of `x`. */
  function Mixed(x: Screen, y: Screen, z: Screen): Screen
    requires |x.lines| == |y.lines| == |z.lines|
  {
    z.(lines := MixedRows(x.lines, y.lines, z.lines))
  }

  /** `y` could be taken for `x` by a delta to `z`. */
  predicate Confusable(x: Screen, y: Screen, z: Screen) {
    && x.generation == y.generation < z.generation
    && x.rows == y.rows == z.rows && x.cols == y.cols == z.cols
    && |x.lines| == |y.lines| == |z.lines|
  }

  /** Whatever a delta between shown screens makes of a shown screen was shown too. */
  predicate ClosedUnderDeltas(shown: set<Screen>) {
    forall x, y, z :: x in shown && y in shown && z in shown && Confusable(x, y, z) ==> Mixed(x, y, z) in shown
  }

  /** The delta from `y` to `z` is accepted on `x` exactly when they can be confused, and then mixes them. */
  lemma DeltaMixes(d: Delta, x: Screen, y: Screen, z: Screen)
    requires WellFormed(x) && WellFormed(y) && WellFormed(z) && IsDeltaBetween(d, y, z)
    ensures Accepts(x, d) <==> Confusable(x, y, z)
    ensures Accepts(x, d) ==> Applied(x, d) == Mixed(x, y, z)
  {
    ChangedRowsOrdered(y.lines, z.lines, |z.lines|);
    if Confusable(x, y, z) {
      assert forall i :: 0 <= i < |d.changes| ==> RowOk(x, d, i);
      ChangedRowsOnto(x.lines, y.lines, z.lines, |z.lines|);
      assert ApplyRows(x.lines, d.changes) == MixedRows(x.lines, y.lines, z.lines);
    }
  }

  predicate HoldsShown(shown: set<Screen>, c: Client) { c.plain.Some? ==> c.plain.value in shown }

  lemma HandleHoldsShown(shown: set<Screen>, c: Client, m: Message)
    requires (forall s :: s in shown ==> WellFormed(s)) && (ClosedUnderDeltas(shown) || !c.deltas)
    requires HoldsShown(shown, c) && DrawnFrom(shown, c.session, m)
    ensures HoldsShown(shown, Handle(c, m)) && Handle(c, m).session == c.session && Handle(c, m).deltas == c.deltas
  {
    if m.DeltaDatagram? && Handle(c, m) != c {
      var y, z :| y in shown && z in shown && IsDeltaBetween(m.delta, y, z);
      DeltaMixes(m.delta, c.plain.value, y, z);
    }
  }

  lemma {:induction false} RunHoldsShown(shown: set<Screen>, c: Client, messages: seq<Message>)
    requires (forall s :: s in shown ==> WellFormed(s)) && (ClosedUnderDeltas(shown) || !c.deltas)
    requires HoldsShown(shown, c) && forall m :: m in messages ==> DrawnFrom(shown, c.session, m)
    ensures var end := HandleAll(c, messages);
            HoldsShown(shown, end) && end.session == c.session && end.deltas == c.deltas
  {
    if messages != [] {
      var n := |messages| - 1;
      RunHoldsShown(shown, c, messages[..n]);
      assert messages[n] in messages;
      HandleHoldsShown(shown, HandleAll(c, messages[..n]), messages[n]);
    }
  }

  /** Whatever screen a client attaches to and whatever is drawn, lost, repeated or reordered. */
  ghost predicate AlwaysHoldsShown(shown: set<Screen>, session: nat, deltas: bool) {
    forall start, messages :: start in shown && (forall m :: m in messages ==> DrawnFrom(shown, session, m)) ==>
      HoldsShown(shown, HandleAll(Attached(session, deltas, start), messages))
  }

  /** The delta the server would send from `y` to `z`. */
  function DeltaFrom(session: nat, y: Screen, z: Screen): Delta
    requires |y.lines| == |z.lines|
  {
    Delta(session, y.generation, z.generation, z.rows, z.cols, ChangedRows(y.lines, z.lines, |z.lines|),
          z.cursorRow, z.cursorCol)
  }

  /** One delta taken for the wrong base leads a client off the shown screens. */
  lemma MixedScreenIsReached(shown: set<Screen>, session: nat, x: Screen, y: Screen, z: Screen)
    requires (forall s :: s in shown ==> WellFormed(s)) && x in shown && y in shown && z in shown && Confusable(x, y, z)
    ensures DrawnFrom(shown, session, DeltaDatagram(DeltaFrom(session, y, z)))
    ensures HandleAll(Attached(session, true, x), [DeltaDatagram(DeltaFrom(session, y, z))]).plain
         == Some(Mixed(x, y, z))
  {
    var d, c := DeltaFrom(session, y, z), Attached(session, true, x);
    DeltaMixes(d, x, y, z);
    assert [DeltaDatagram(d)][..0] == [];
    assert HandleAll(c, [DeltaDatagram(d)]) == Handle(HandleAll(c, []), DeltaDatagram(d));
  }

  /**
   * Every client, under any messages drawn from the shown screens, holds a shown screen, if and only if it
   * takes no deltas or the shown screens are closed under what a delta makes of a screen of its base's
   * generation and geometry.
   */
  lemma HeldScreensExactly(shown: set<Screen>, session: nat, deltas: bool)
    requires forall s :: s in shown ==> WellFormed(s)
    ensures AlwaysHoldsShown(shown, session, deltas) <==> !deltas || ClosedUnderDeltas(shown)
  {
    if !deltas || ClosedUnderDeltas(shown) {
      forall start, messages | start in shown && (forall m :: m in messages ==> DrawnFrom(shown, session, m))
        ensures HoldsShown(shown, HandleAll(Attached(session, deltas, start), messages))
      {
        RunHoldsShown(shown, Attached(session, deltas, start), messages);
      }
    } else {
      var x, y, z :| x in shown && y in shown && z in shown && Confusable(x, y, z) && Mixed(x, y, z) !in shown;
      MixedScreenIsReached(shown, session, x, y, z);
    }
  }

  /**
   * Two shown screens of one generation: the client keeps the first, ignores the second for its equal
   * generation, and accepts the delta taken from the second for its equal geometry.
   */
  lemma ConfusedClient(c: Client, x: Screen, y: Screen, z: Screen)
    requires WellFormed(x) && WellFormed(y) && WellFormed(z) && Confusable(x, y, z)
    requires c.deltas && c.newest < x.generation
    ensures var d := DeltaFrom(c.session, y, z);
            && IsDeltaBetween(d, y, z)
            && HandleAll(c, [PlainDatagram(c.session, x), PlainDatagram(c.session, y), DeltaDatagram(d)]).plain
               == Some(Mixed(x, y, z))
  {
    var d := DeltaFrom(c.session, y, z);
    var first, second, third := PlainDatagram(c.session, x), PlainDatagram(c.session, y), DeltaDatagram(d);
    DeltaMixes(d, x, y, z);
    assert [first, second, third][..2] == [first, second] && [first, second][..1] == [first] && [first][..0] == [];
    assert HandleAll(c, [first]) == Handle(c, first);
    assert HandleAll(c, [first, second]) == Handle(Handle(c, first), second) == Handle(c, first);
  }
}
