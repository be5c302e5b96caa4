/**
 * The durable event subscription: one consumer following a session's journal through
 * disconnects, resubscriptions, compaction and crashes, with acknowledgements sent by
 * background workers.  A run is any sequence of actions; the server's side of each action is
 * what `subscribe_events` and `stream_event_subscription` of the server do.
 */
module Subscription {
  import opened Base

  datatype EventKind =
    | ProcessStarted(processId: nat)
    | ProcessOutput(processId: nat)
    | ProcessExited(processId: nat)
    | SignalApplied(processId: nat)
    | OtherEvent

  datatype Event = Event(id: nat, kind: EventKind)

  datatype Filter = Filter(processId: Option<nat>, includeOutput: bool)

  /** `event_matches_subscription`. */
  predicate Matches(f: Filter, e: Event) {
    && (e.kind.ProcessOutput? ==> f.includeOutput)
    && (f.processId.Some? ==> !e.kind.OtherEvent? && e.kind.processId == f.processId.value)
  }

  /** The process an event is about, if any. */
  function AboutProcess(e: Event): Option<nat> {
    if e.kind.OtherEvent? then None else Some(e.kind.processId)
  }

  /** What a subscription asks for: everything, or one process; with its output, or all but the output. */
  lemma FilterMeaning(process: nat, e: Event)
    ensures Matches(Filter(None, true), e)
    ensures Matches(Filter(None, false), e) <==> !e.kind.ProcessOutput?
    ensures Matches(Filter(Some(process), true), e) <==> AboutProcess(e) == Some(process)
    ensures Matches(Filter(Some(process), false), e) <==>
              AboutProcess(e) == Some(process) && !e.kind.ProcessOutput?
  {}

  /** The ids in (lo, hi] that a step passed over without printing them. */
  datatype Skip = Skip(lo: nat, hi: nat)

  predicate Covers(skips: set<Skip>, id: nat) {
    exists s :: s in skips && s.lo < id <= s.hi
  }

  const ACK_QUEUE: nat := 32

  /** One acknowledgement worker: its bounded channel and the value it is coalescing. */
  datatype Worker = Worker(queue: seq<nat>, pending: Option<nat>)

  /** What the client must still do before it reads the next response. */
  datatype Pc = Reading | Saving(ackAfter: Option<nat>)

  /** The server's side of the open subscription: ids up to `pos` have been considered. */
  datatype Stream =
    | Closed
    | Opening(after: nat, through: nat, compacted: bool, leases: bool)
    | Streaming(pos: nat, marker: Option<nat>)

  datatype State = State(
    filter: Filter,
    journal: seq<Event>,
    stream: Stream,
    // the client process
    cursor: nat, start: nat, requested: Option<nat>, first: bool, pc: Pc,
    printed: seq<Event>, jumps: set<Skip>,
    sender: Option<nat>, workers: seq<Worker>, acks: seq<nat>,
    // what survives a crash, or is only observed
    persisted: nat, initial: nat, high: nat, ever: seq<Event>, skips: set<Skip>, ackedEver: seq<nat>)
  {
    function Head(): nat { if journal == [] then 0 else journal[|journal| - 1].id }

    /** The position the caller asked this process to print from. */
    function Floor(): nat { Max(start, if requested.Some? then requested.value else 0) }

    /** The `after_event_id` of the next subscription. */
    function After(): nat { if first && requested.Some? then requested.value else cursor }

    function Advance(id: nat): State {
      this.(cursor := Max(cursor, id), high := Max(high, id))
    }

    /** Put one event out and move the cursor and the stream position to it. */
    function Print(e: Event): State {
      this.(stream := Streaming(e.id, if stream.Streaming? then stream.marker else None),
            cursor := Max(cursor, e.id), high := Max(high, e.id), printed := printed + [e], ever := ever + [e])
    }

    /** `try_send` on the current worker's channel: dropped when it is full or absent. */
    function Enqueue(id: nat): State {
      if sender.Some? && sender.value < |workers| && |workers[sender.value].queue| < ACK_QUEUE then
        var w := workers[sender.value];
        this.(workers := workers[sender.value := w.(queue := w.queue + [id])])
      else this
    }
  }

  /** Index of the first matching event behind `pos`, searching from index `i`. */
  function NextIndex(f: Filter, journal: seq<Event>, pos: nat, i: nat): (r: nat)
    requires i <= |journal|
    ensures i <= r <= |journal|
    ensures r < |journal| ==> journal[r].id > pos && Matches(f, journal[r])
    ensures forall k :: i <= k < r ==> !(journal[k].id > pos && Matches(f, journal[k]))
    decreases |journal| - i
  {
    if i == |journal| || (journal[i].id > pos && Matches(f, journal[i])) then i
    else NextIndex(f, journal, pos, i + 1)
  }

  /** The next event the server streams, if it has one. */
  function NextMatching(f: Filter, journal: seq<Event>, pos: nat): Option<Event> {
    var i := NextIndex(f, journal, pos, 0);
    if i < |journal| then Some(journal[i]) else None
  }

  datatype Action =
    | Append(kind: EventKind, id: nat)
    | Subscribe(compacted: bool, leases: bool, consumer: bool)
    | Ready(pos: nat)
    | Notify(saveOutput: bool)
    | CaughtUp
    | Save
    | Disconnect
    | Crash(restart: Option<nat>)
    | TakeAck(worker: nat)
    | CoalesceAck(worker: nat)
    | SendAck(worker: nat)

  /** `SUBSCRIBE_EVENTS`: refused when the cursor is ahead of the journal. */
  function DoSubscribe(s: State, compacted: bool, leases: bool, consumer: bool): Option<State> {
    if !s.stream.Closed? || s.pc != Reading || s.After() > s.Head() then None
    else
      var t := s.(stream := Opening(s.After(), s.Head(), compacted, leases), first := false,
                  skips := s.skips + {Skip(s.cursor, s.After())});
      Some(if leases && consumer
           then t.(workers := t.workers + [Worker([], None)], sender := Some(|t.workers|))
           else t.(sender := None))
  }

  /** `SUBSCRIPTION_READY`: a compacted history is replaced by the snapshot at the boundary. */
  function DoReady(s: State, pos: nat): Option<State> {
    if !s.stream.Opening? || s.pc != Reading then None
    else
      var Opening(after, through, compacted, leases) := s.stream;
      var marker := if leases then Some(through) else None;
      if compacted then
        if after <= pos <= through then
          var jump := Skip(s.cursor, through);
          Some(s.Advance(through).(stream := Streaming(pos, marker), pc := Saving(Some(through)),
                                   jumps := s.jumps + {jump}, skips := s.skips + {jump}))
        else None
      else
        var t := s.(stream := Streaming(after, marker));
        Some(if s.cursor >= through then t.Enqueue(through) else t)
  }

  /**
   * The client's handling of `EVENT_NOTIFICATION`: duplicates are dropped, new events printed,
   * acknowledged, then saved.
   */
  function HandleEvent(s: State, e: Event, saveOutput: bool): State
    requires s.stream.Streaming?
  {
    if e.id <= s.cursor then s.(stream := s.stream.(pos := e.id))
    else
      var u := s.Print(e).Enqueue(e.id);
      if !e.kind.ProcessOutput? || saveOutput then u.(pc := Saving(None)) else u
  }

  /** The server sends the next matching event; backlog before marker, marker before live events. */
  function DoNotify(s: State, saveOutput: bool): Option<State> {
    if !s.stream.Streaming? || s.pc != Reading then None
    else
      var next := NextMatching(s.filter, s.journal, s.stream.pos);
      if next.None? || (s.stream.marker.Some? && next.value.id > s.stream.marker.value) then None
      else Some(HandleEvent(s, next.value, saveOutput))
  }

  /** The client's handling of `SUBSCRIPTION_CAUGHT_UP`. */
  function HandleBoundary(s: State, through: nat): State
    requires s.stream.Streaming?
  {
    s.Advance(through).(stream := Streaming(Max(s.stream.pos, through), None), pc := Saving(Some(through)))
  }

  /** The marker is sent once the captured backlog has been streamed. */
  function DoCaughtUp(s: State): Option<State> {
    if !s.stream.Streaming? || s.stream.marker.None? || s.pc != Reading then None
    else
      var next := NextMatching(s.filter, s.journal, s.stream.pos);
      if next.Some? && next.value.id <= s.stream.marker.value then None
      else Some(HandleBoundary(s, s.stream.marker.value))
  }

  /** Publishing the cursor; the saved entry never moves backwards. */
  function DoSave(s: State): Option<State> {
    if !s.pc.Saving? then None
    else
      var t := s.(persisted := Max(s.persisted, s.cursor), pc := Reading);
      Some(if s.pc.ackAfter.Some? then t.Enqueue(s.pc.ackAfter.value) else t)
  }

  function DoWorker(s: State, a: Action): Option<State>
    requires a.TakeAck? || a.CoalesceAck? || a.SendAck?
  {
    if a.worker >= |s.workers| then None
    else
      var w := s.workers[a.worker];
      if a.TakeAck? && w.queue != [] && w.pending.None? then
        Some(s.(workers := s.workers[a.worker := Worker(w.queue[1..], Some(w.queue[0]))]))
      else if a.CoalesceAck? && w.queue != [] && w.pending.Some? then
        Some(s.(workers := s.workers[a.worker := Worker(w.queue[1..], Some(Max(w.pending.value, w.queue[0])))]))
      else if a.SendAck? && w.pending.Some? then
        Some(s.(workers := s.workers[a.worker := w.(pending := None)],
                acks := s.acks + [w.pending.value], ackedEver := s.ackedEver + [w.pending.value]))
      else None
  }

  /** The effect of one action, or `None` where it cannot happen. */
  function Next(s: State, a: Action): Option<State> {
    match a
    case Append(kind, id) => if id > s.Head() then Some(s.(journal := s.journal + [Event(id, kind)])) else None
    case Subscribe(compacted, leases, consumer) => DoSubscribe(s, compacted, leases, consumer)
    case Ready(pos) => DoReady(s, pos)
    case Notify(saveOutput) => DoNotify(s, saveOutput)
    case CaughtUp => DoCaughtUp(s)
    case Save => DoSave(s)
    case Disconnect => if s.pc == Reading then Some(s.(stream := Closed)) else None
    case Crash(restart) =>
      Some(s.(stream := Closed, cursor := s.persisted, start := s.persisted, requested := restart, first := true,
              pc := Reading, printed := [], jumps := {}, sender := None, workers := [], acks := []))
    case TakeAck(_) => DoWorker(s, a)
    case CoalesceAck(_) => DoWorker(s, a)
    case SendAck(_) => DoWorker(s, a)
  }

  /** The state a sequence of actions leads to. */
  function Run(s: State, actions: seq<Action>): Option<State> {
    if actions == [] then Some(s)
    else
      var front := Run(s, actions[..|actions| - 1]);
      if front.None? then None else Next(front.value, actions[|actions| - 1])
  }

  /** A consumer that starts with a cursor the journal has already passed. */
  predicate Init(s: State) {
    && Ordered(s.journal)
    && s.cursor == s.start == s.persisted == s.initial == s.high <= s.Head()
    && s.stream.Closed? && s.first && s.pc == Reading && s.printed == [] && s.jumps == {}
    && s.sender.None? && s.workers == [] && s.acks == []
    && s.ever == [] && s.skips == {} && s.ackedEver == []
  }

  predicate Ordered(es: seq<Event>) {
    forall i, j :: 0 <= i < j < |es| ==> es[i].id < es[j].id
  }

  // ---------- the properties ----------

  /** Printed ids strictly increase, so nothing is printed twice, and only matching events are printed. */
  predicate InOrder(f: Filter, journal: seq<Event>, start: nat, cursor: nat, printed: seq<Event>) {
    && Ordered(printed)
    && forall e :: e in printed ==> e in journal && Matches(f, e) && start < e.id <= cursor
  }

  /** Every matching event in (lo, hi] was put out, unless one of the skips passed over it. */
  predicate Delivered(f: Filter, journal: seq<Event>, lo: nat, hi: nat, out: seq<Event>, skips: set<Skip>) {
    forall e :: e in journal && Matches(f, e) && lo < e.id <= hi ==> e in out || Covers(skips, e.id)
  }

  predicate AllAtMost(values: seq<nat>, limit: nat) {
    forall i :: 0 <= i < |values| ==> values[i] <= limit
  }

  predicate WorkersBehind(workers: seq<Worker>, limit: nat) {
    forall i :: 0 <= i < |workers| ==>
      && AllAtMost(workers[i].queue, limit)
      && (workers[i].pending.Some? ==> workers[i].pending.value <= limit)
  }

  /** The stream never runs ahead of what has been printed or was asked to be skipped. */
  predicate StreamBehind(stream: Stream, limit: nat, head: nat) {
    match stream
    case Closed => true
    case Opening(after, through, _, _) => after <= limit && after <= through <= head
    case Streaming(pos, marker) => pos <= limit && (marker.Some? ==> marker.value <= head)
  }

  predicate Positions(s: State) {
    && Ordered(s.journal)
    && s.initial <= s.start <= s.persisted <= s.cursor <= s.high <= s.Head()
    && StreamBehind(s.stream, Max(s.cursor, s.Floor()), s.Head())
    && (!s.first && s.requested.Some? ==> Skip(s.start, s.requested.value) in s.skips)
    && (s.pc.Saving? && s.pc.ackAfter.Some? ==> s.pc.ackAfter.value <= s.cursor)
    && (s.first ==> s.cursor == s.start && s.stream.Closed?)
  }

  predicate Invariant(s: State) {
    && Positions(s)
    && InOrder(s.filter, s.journal, s.start, s.cursor, s.printed)
    && Delivered(s.filter, s.journal, s.Floor(), s.cursor, s.printed, s.jumps)
    && Delivered(s.filter, s.journal, s.initial, s.high, s.ever, s.skips)
    && AllAtMost(s.acks, s.cursor) && WorkersBehind(s.workers, s.cursor) && AllAtMost(s.ackedEver, s.high)
  }

  // ---------- every action keeps the invariant ----------

  /** `e` matches, lies behind `pos`, and no other matching event lies between. */
  predicate IsNext(f: Filter, journal: seq<Event>, pos: nat, e: Event) {
    && e in journal && Matches(f, e) && e.id > pos
    && forall x :: x in journal && Matches(f, x) && pos < x.id ==> x == e || x.id > e.id
  }

  lemma NextMatchingIs(s: State)
    requires Ordered(s.journal) && s.stream.Streaming?
    ensures var next := NextMatching(s.filter, s.journal, s.stream.pos);
            && (next.Some? ==> IsNext(s.filter, s.journal, s.stream.pos, next.value))
            && (next.None? ==> forall e :: e in s.journal && Matches(s.filter, e) ==> e.id <= s.stream.pos)
  {}

  lemma OrderedHead(es: seq<Event>)
    requires Ordered(es)
    ensures forall e :: e in es ==> e.id <= es[|es| - 1].id
  {}

  /** Queueing an id the cursor has reached changes nothing but the queue. */
  lemma EnqueueKeeps(s: State, id: nat)
    requires WorkersBehind(s.workers, s.cursor) && id <= s.cursor
    ensures WorkersBehind(s.Enqueue(id).workers, s.cursor)
    ensures s.Enqueue(id) == s.(workers := s.Enqueue(id).workers)
  {}

  lemma WorkersLater(workers: seq<Worker>, limit: nat, limit': nat)
    requires WorkersBehind(workers, limit) && limit <= limit'
    ensures WorkersBehind(workers, limit')
  {}

  /** Accounting for the ids behind `hi` that a movement passes over accounts for all of them. */
  lemma DeliveredMore(f: Filter, journal: seq<Event>, lo: nat, hi: nat, out: seq<Event>, skips: set<Skip>,
                      hi': nat, out': seq<Event>, skips': set<Skip>)
    requires Delivered(f, journal, lo, hi, out, skips)
    requires (forall e :: e in out ==> e in out') && skips <= skips'
    requires forall e :: e in journal && Matches(f, e) && lo < e.id && hi < e.id <= hi' ==>
               e in out' || Covers(skips', e.id)
    ensures Delivered(f, journal, lo, hi', out', skips')
  {
    forall e | e in journal && Matches(f, e) && lo < e.id <= hi' ensures e in out' || Covers(skips', e.id) {
      if e.id <= hi && e !in out {
        var x :| x in skips && x.lo < e.id <= x.hi;
        assert x in skips';
      }
    }
  }

  /** Ids behind the stream position that no process has reached were skipped on request. */
  lemma BehindStreamIsSkipped(s: State, id: nat)
    requires Positions(s) && s.stream.Streaming?
    requires s.high < id <= s.stream.pos
    ensures Covers(s.skips, id)
  {
    assert Skip(s.start, s.requested.value) in s.skips;
  }

  lemma KeepAppend(s: State, kind: EventKind, id: nat)
    requires Invariant(s) && id > s.Head()
    ensures Invariant(s.(journal := s.journal + [Event(id, kind)]))
  {
    if s.journal != [] {
      OrderedHead(s.journal);
    }
  }

  lemma KeepSubscribe(s: State, compacted: bool, leases: bool, consumer: bool)
    requires Invariant(s) && DoSubscribe(s, compacted, leases, consumer).Some?
    ensures Invariant(DoSubscribe(s, compacted, leases, consumer).value)
  {
    var t := DoSubscribe(s, compacted, leases, consumer).value;
    DeliveredMore(s.filter, s.journal, s.initial, s.high, s.ever, s.skips, s.high, s.ever, t.skips);
  }

  /** Queueing a reached id, with or without a save to follow. */
  lemma KeepQueued(s: State, id: nat)
    requires Invariant(s) && id <= s.cursor
    ensures Invariant(s.Enqueue(id)) && Invariant(s.Enqueue(id).(pc := Saving(None)))
  {
    EnqueueKeeps(s, id);
  }

  lemma KeepReady(s: State, pos: nat)
    requires Invariant(s) && DoReady(s, pos).Some?
    ensures Invariant(DoReady(s, pos).value)
  {
    if s.stream.compacted {
      KeepCompactedReady(s, pos);
    } else if s.cursor >= s.stream.through {
      KeepQueued(s.(stream := Streaming(s.stream.after, if s.stream.leases then Some(s.stream.through) else None)),
                 s.stream.through);
    }
  }

  lemma KeepCompactedReady(s: State, pos: nat)
    requires Invariant(s) && s.stream.Opening? && s.stream.compacted && DoReady(s, pos).Some?
    ensures Invariant(DoReady(s, pos).value)
  {
    var t, jump := DoReady(s, pos).value, Skip(s.cursor, s.stream.through);
    assert jump in t.jumps && jump in t.skips;
    DeliveredMore(s.filter, s.journal, s.Floor(), s.cursor, s.printed, s.jumps, t.cursor, t.printed, t.jumps);
    DeliveredMore(s.filter, s.journal, s.initial, s.high, s.ever, s.skips, t.high, t.ever, t.skips);
    WorkersLater(s.workers, s.cursor, t.cursor);
  }

  /** Once the backlog is through, the boundary can be taken over without printing anything more. */
  lemma BoundaryDelivers(s: State, through: nat)
    requires Invariant(s) && s.stream.Streaming?
    requires forall e :: e in s.journal && Matches(s.filter, e) && s.stream.pos < e.id ==> e.id > through
    ensures Delivered(s.filter, s.journal, s.Floor(), Max(s.cursor, through), s.printed, s.jumps)
    ensures Delivered(s.filter, s.journal, s.initial, Max(s.high, through), s.ever, s.skips)
  {
    forall e | e in s.journal && Matches(s.filter, e) && s.high < e.id <= through ensures Covers(s.skips, e.id) {
      BehindStreamIsSkipped(s, e.id);
    }
    DeliveredMore(s.filter, s.journal, s.Floor(), s.cursor, s.printed, s.jumps, Max(s.cursor, through), s.printed,
                  s.jumps);
    DeliveredMore(s.filter, s.journal, s.initial, s.high, s.ever, s.skips, Max(s.high, through), s.ever, s.skips);
  }

  lemma KeepBoundary(s: State, through: nat)
    requires Invariant(s) && s.stream.Streaming? && !s.first && through <= s.Head()
    requires forall e :: e in s.journal && Matches(s.filter, e) && s.stream.pos < e.id ==> e.id > through
    ensures Invariant(HandleBoundary(s, through))
  {
    BoundaryDelivers(s, through);
    WorkersLater(s.workers, s.cursor, Max(s.cursor, through));
  }

  lemma KeepCaughtUp(s: State)
    requires Invariant(s) && DoCaughtUp(s).Some?
    ensures Invariant(DoCaughtUp(s).value)
  {
    NextMatchingIs(s);
    KeepBoundary(s, s.stream.marker.value);
  }

  lemma PrintInOrder(f: Filter, journal: seq<Event>, start: nat, cursor: nat, printed: seq<Event>, e: Event)
    requires InOrder(f, journal, start, cursor, printed)
    requires e in journal && Matches(f, e) && start <= cursor < e.id
    ensures InOrder(f, journal, start, e.id, printed + [e])
  {
    forall i | 0 <= i < |printed| ensures printed[i].id < e.id {
      assert printed[i] in printed;
    }
  }

  /** Nothing matching lies between the next event and what was accounted for before. */
  lemma PrintDelivers(s: State, e: Event)
    requires Invariant(s) && s.stream.Streaming?
    requires IsNext(s.filter, s.journal, s.stream.pos, e) && e.id > s.cursor
    ensures Delivered(s.filter, s.journal, s.Floor(), e.id, s.printed + [e], s.jumps)
    ensures Delivered(s.filter, s.journal, s.initial, Max(s.high, e.id), s.ever + [e], s.skips)
  {
    forall x | x in s.journal && Matches(s.filter, x) && s.high < x.id <= e.id
      ensures x in s.ever + [e] || Covers(s.skips, x.id)
    {
      if x != e { BehindStreamIsSkipped(s, x.id); }
    }
    DeliveredMore(s.filter, s.journal, s.Floor(), s.cursor, s.printed, s.jumps, e.id, s.printed + [e], s.jumps);
    DeliveredMore(s.filter, s.journal, s.initial, s.high, s.ever, s.skips, Max(s.high, e.id), s.ever + [e], s.skips);
  }

  lemma KeepPrint(s: State, e: Event)
    requires Invariant(s) && s.stream.Streaming?
    requires IsNext(s.filter, s.journal, s.stream.pos, e) && e.id > s.cursor
    ensures Invariant(s.Print(e))
  {
    OrderedHead(s.journal);
    PrintDelivers(s, e);
    PrintInOrder(s.filter, s.journal, s.start, s.cursor, s.printed, e);
    WorkersLater(s.workers, s.cursor, e.id);
  }

  lemma KeepDuplicate(s: State, pos: nat)
    requires Invariant(s) && s.stream.Streaming? && pos <= s.cursor
    ensures Invariant(s.(stream := s.stream.(pos := pos)))
  {}

  lemma KeepEvent(s: State, e: Event, saveOutput: bool)
    requires Invariant(s) && s.stream.Streaming?
    requires IsNext(s.filter, s.journal, s.stream.pos, e)
    ensures Invariant(HandleEvent(s, e, saveOutput))
  {
    if e.id <= s.cursor {
      KeepDuplicate(s, e.id);
    } else {
      KeepPrint(s, e);
      KeepQueued(s.Print(e), e.id);
    }
  }

  lemma KeepNotify(s: State, saveOutput: bool)
    requires Invariant(s) && DoNotify(s, saveOutput).Some?
    ensures Invariant(DoNotify(s, saveOutput).value)
  {
    NextMatchingIs(s);
    KeepEvent(s, NextMatching(s.filter, s.journal, s.stream.pos).value, saveOutput);
  }

  lemma KeepSave(s: State)
    requires Invariant(s) && DoSave(s).Some?
    ensures Invariant(DoSave(s).value)
  {
    if s.pc.ackAfter.Some? {
      KeepQueued(s.(persisted := Max(s.persisted, s.cursor), pc := Reading), s.pc.ackAfter.value);
    }
  }

  lemma KeepWorker(s: State, a: Action)
    requires Invariant(s) && (a.TakeAck? || a.CoalesceAck? || a.SendAck?) && DoWorker(s, a).Some?
    ensures Invariant(DoWorker(s, a).value)
  {
    assert AllAtMost(s.workers[a.worker].queue, s.cursor);
    assert WorkersBehind(DoWorker(s, a).value.workers, s.cursor);
  }

  lemma KeepDisconnect(s: State)
    requires Invariant(s)
    ensures Invariant(s.(stream := Closed))
  {}

  lemma KeepCrash(s: State, restart: Option<nat>)
    requires Invariant(s)
    ensures Invariant(Next(s, Crash(restart)).value)
  {}

  lemma KeepNext(s: State, a: Action)
    requires Invariant(s) && Next(s, a).Some?
    ensures Invariant(Next(s, a).value)
  {
    match a
    case Append(kind, id) => KeepAppend(s, kind, id);
    case Subscribe(compacted, leases, consumer) => KeepSubscribe(s, compacted, leases, consumer);
    case Ready(pos) => KeepReady(s, pos);
    case Notify(saveOutput) => KeepNotify(s, saveOutput);
    case CaughtUp => KeepCaughtUp(s);
    case Save => KeepSave(s);
    case Disconnect => KeepDisconnect(s);
    case Crash(restart) => KeepCrash(s, restart);
    case TakeAck(_) => KeepWorker(s, a);
    case CoalesceAck(_) => KeepWorker(s, a);
    case SendAck(_) => KeepWorker(s, a);
  }

  /** Every state of every run satisfies the invariant. */
  lemma {:induction false} EveryRunKeepsInvariant(s: State, actions: seq<Action>)
    requires Init(s) && Run(s, actions).Some?
    ensures Invariant(Run(s, actions).value)
  {
    if actions != [] {
      EveryRunKeepsInvariant(s, actions[..|actions| - 1]);
      KeepNext(Run(s, actions[..|actions| - 1]).value, actions[|actions| - 1]);
    }
  }

  // ---------- the theorems ----------

  /**
   * Only matching journal events above the saved start and up to the cursor are printed, in increasing
   * order; with no compaction jump, all of them above the requested start too.
   */
  lemma PrintedExactlyOnce(s: State, actions: seq<Action>)
    requires Init(s) && Run(s, actions).Some?
    ensures var t := Run(s, actions).value;
            && InOrder(t.filter, t.journal, t.start, t.cursor, t.printed)
            && (t.jumps == {} ==> forall e :: e in t.journal && t.Floor() < e.id <= t.cursor ==>
                  (e in t.printed <==> Matches(t.filter, e)))
  {
    EveryRunKeepsInvariant(s, actions);
  }

  /** No acknowledgement sent by a process exceeds that process's cursor, in any state of any run. */
  lemma AckNeverAheadOfCursor(s: State, actions: seq<Action>, i: nat)
    requires Init(s) && Run(s, actions).Some? && i < |Run(s, actions).value.acks|
    ensures Run(s, actions).value.acks[i] <= Run(s, actions).value.cursor
  {
    EveryRunKeepsInvariant(s, actions);
  }

  /**
   * Whatever the server was told it may forget has been printed by some process, passed over on
   * request, or replaced by a compaction snapshot, however often the consumer crashed.
   */
  lemma AcknowledgedWasDelivered(s: State, actions: seq<Action>, i: nat, e: Event)
    requires Init(s) && Run(s, actions).Some? && i < |Run(s, actions).value.ackedEver|
    ensures var t := Run(s, actions).value;
            e in t.journal && Matches(t.filter, e) && t.initial < e.id <= t.ackedEver[i] ==>
              e in t.ever || Covers(t.skips, e.id)
  {
    EveryRunKeepsInvariant(s, actions);
  }

  /** A restart resumes no later than what was delivered, so a crash can repeat output but not lose it. */
  lemma PersistedWasDelivered(s: State, actions: seq<Action>, e: Event)
    requires Init(s) && Run(s, actions).Some?
    ensures var t := Run(s, actions).value;
            e in t.journal && Matches(t.filter, e) && t.initial < e.id <= t.persisted ==>
              e in t.ever || Covers(t.skips, e.id)
  {
    EveryRunKeepsInvariant(s, actions);
  }

  lemma RunPush(s: State, actions: seq<Action>, a: Action, t: State)
    requires Run(s, actions) == Some(t)
    ensures Run(s, actions + [a]) == Next(t, a)
  {
    assert (actions + [a])[..|actions|] == actions;
  }
}
