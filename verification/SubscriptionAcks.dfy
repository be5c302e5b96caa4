/**
 * Acknowledgements and the saved cursor.  An acknowledgement may be queued before the cursor is saved, so
 * the saved cursor does not bound what is acknowledged; this says exactly which steps break the bound, and
 * gives runs that take them.
 */
module SubscriptionAcks {
  import opened Base
  import opened Subscription

  predicate IsWorkerAction(a: Action) { a.TakeAck? || a.CoalesceAck? || a.SendAck? }

  predicate WorkersOnly(actions: seq<Action>) {
    forall i :: 0 <= i < |actions| ==> IsWorkerAction(actions[i])
  }

  /** Everything sent, being coalesced or queued is covered by the saved cursor. */
  predicate AcksCovered(s: State) {
    AllAtMost(s.acks, s.persisted) && WorkersBehind(s.workers, s.persisted)
  }

  lemma {:induction false} CoveredStaysCovered(s: State, actions: seq<Action>)
    requires AcksCovered(s) && WorkersOnly(actions) && Run(s, actions).Some?
    ensures AcksCovered(Run(s, actions).value) && Run(s, actions).value.persisted == s.persisted
  {
    if actions != [] {
      var front, a := actions[..|actions| - 1], actions[|actions| - 1];
      CoveredStaysCovered(s, front);
      var t := Run(s, front).value;
      assert IsWorkerAction(a) && AllAtMost(t.workers[a.worker].queue, s.persisted);
    }
  }

  /** The worker is about to send the largest of the values it has taken, `n` of them from its queue. */
  predicate Taken(s: State, t: State, i: nat, n: nat)
    requires i < |s.workers| && n <= |s.workers[i].queue|
  {
    && t.acks == s.acks && i < |t.workers| && t.workers[i].queue == s.workers[i].queue[n..]
    && t.workers[i].pending.Some?
    && (s.workers[i].pending.Some? ==> s.workers[i].pending.value <= t.workers[i].pending.value)
    && AllAtMost(s.workers[i].queue[..n], t.workers[i].pending.value)
  }

  lemma TakeFirst(s: State, i: nat)
    requires i < |s.workers| && s.workers[i].queue != [] && s.workers[i].pending.None?
    ensures Next(s, TakeAck(i)).Some? && Taken(s, Next(s, TakeAck(i)).value, i, 1)
  {}

  lemma TakeAnother(s: State, t: State, i: nat, n: nat)
    requires i < |s.workers| && n < |s.workers[i].queue| && Taken(s, t, i, n)
    ensures Next(t, CoalesceAck(i)).Some? && Taken(s, Next(t, CoalesceAck(i)).value, i, n + 1)
  {
    var queue := s.workers[i].queue;
    assert queue[n..][1..] == queue[n + 1..] && queue[..n + 1] == queue[..n] + [queue[n]];
  }

  /** A worker can be scheduled to take the first `n` values of its queue. */
  lemma {:induction false} CanTake(s: State, i: nat, n: nat) returns (actions: seq<Action>, t: State)
    requires i < |s.workers| && n <= |s.workers[i].queue| && (n == 0 ==> s.workers[i].pending.Some?)
    ensures WorkersOnly(actions) && Run(s, actions) == Some(t) && Taken(s, t, i, n)
    decreases n
  {
    if n == 0 {
      return [], s;
    }
    if n == 1 && s.workers[i].pending.None? {
      TakeFirst(s, i);
      RunPush(s, [], TakeAck(i), s);
      return [] + [TakeAck(i)], Next(s, TakeAck(i)).value;
    }
    var before;
    actions, before := CanTake(s, i, n - 1);
    TakeAnother(s, before, i, n - 1);
    RunPush(s, actions, CoalesceAck(i), before);
    actions, t := actions + [CoalesceAck(i)], Next(before, CoalesceAck(i)).value;
  }

  lemma CanOvertake(s: State, i: nat, n: nat, value: nat) returns (actions: seq<Action>)
    requires i < |s.workers| && n <= |s.workers[i].queue| && (n == 0 ==> s.workers[i].pending.Some?)
    requires value == if n == 0 then s.workers[i].pending.value else s.workers[i].queue[n - 1]
    ensures WorkersOnly(actions) && Run(s, actions).Some? && Run(s, actions).value.acks != []
    ensures var acks := Run(s, actions).value.acks; acks[|acks| - 1] >= value
  {
    var t;
    actions, t := CanTake(s, i, n);
    assert n > 0 ==> s.workers[i].queue[..n][n - 1] == value;
    RunPush(s, actions, SendAck(i), t);
    actions := actions + [SendAck(i)];
  }

  /**
   * In any state: the workers cannot send an acknowledgement above the saved cursor, whatever their
   * schedule, if and only if nothing above it is queued, being coalesced or already sent.
   */
  lemma AcksCoveredExactly(s: State)
    ensures AcksCovered(s) <==>
              forall actions :: WorkersOnly(actions) && Run(s, actions).Some? ==>
                AllAtMost(Run(s, actions).value.acks, s.persisted)
  {
    if AcksCovered(s) {
      forall actions | WorkersOnly(actions) && Run(s, actions).Some?
        ensures AllAtMost(Run(s, actions).value.acks, s.persisted)
      {
        CoveredStaysCovered(s, actions);
      }
    } else if AllAtMost(s.acks, s.persisted) {
      var i :| 0 <= i < |s.workers| &&
        !(AllAtMost(s.workers[i].queue, s.persisted) &&
          (s.workers[i].pending.Some? ==> s.workers[i].pending.value <= s.persisted));
      var w := s.workers[i];
      var actions;
      if w.pending.Some? && w.pending.value > s.persisted {
        actions := CanOvertake(s, i, 0, w.pending.value);
      } else {
        var k :| 0 <= k < |w.queue| && w.queue[k] > s.persisted;
        actions := CanOvertake(s, i, k + 1, w.queue[k]);
      }
    } else {
      assert WorkersOnly([]) && Run(s, []) == Some(s);
    }
  }

  // ---------- which steps queue ahead of the saved cursor ----------

  /** There is a current worker, and its channel takes another value. */
  predicate HasRoom(s: State) {
    s.sender.Some? && s.sender.value < |s.workers| && |s.workers[s.sender.value].queue| < ACK_QUEUE
  }

  /** An event that will be printed: it is acknowledged before it is saved. */
  predicate PrintsAhead(s: State, a: Action) {
    && a.Notify? && s.stream.Streaming? && HasRoom(s)
    && var e := NextMatching(s.filter, s.journal, s.stream.pos); e.Some? && e.value.id > s.cursor
  }

  /** A boundary the cursor has reached through output that was never saved. */
  predicate ReadiesAhead(s: State, a: Action) {
    && a.Ready? && s.stream.Opening? && !s.stream.compacted && HasRoom(s)
    && s.persisted < s.stream.through <= s.cursor
  }

  predicate QueuesAhead(s: State, a: Action) { PrintsAhead(s, a) || ReadiesAhead(s, a) }

  lemma EnqueueCovered(s: State, id: nat)
    requires AcksCovered(s)
    ensures AcksCovered(s.Enqueue(id)) <==> id <= s.persisted || !HasRoom(s)
  {
    if HasRoom(s) {
      var i := s.sender.value;
      var queue := s.Enqueue(id).workers[i].queue;
      assert queue[|queue| - 1] == id;
      assert AllAtMost(s.workers[i].queue, s.persisted);
    }
  }

  lemma NotifyCovered(s: State, saveOutput: bool)
    requires Positions(s) && AcksCovered(s) && DoNotify(s, saveOutput).Some?
    ensures AcksCovered(DoNotify(s, saveOutput).value) <==> !PrintsAhead(s, Notify(saveOutput))
  {
    var e := NextMatching(s.filter, s.journal, s.stream.pos).value;
    EnqueueCovered(s.Print(e), e.id);
  }

  lemma ReadyCovered(s: State, pos: nat)
    requires AcksCovered(s) && DoReady(s, pos).Some?
    ensures AcksCovered(DoReady(s, pos).value) <==> !ReadiesAhead(s, Ready(pos))
  {
    var Opening(after, through, compacted, leases) := s.stream;
    if !compacted && s.cursor >= through {
      EnqueueCovered(s.(stream := Streaming(after, if leases then Some(through) else None)), through);
    }
  }

  lemma SaveCovered(s: State)
    requires Positions(s) && AcksCovered(s) && DoSave(s).Some?
    ensures AcksCovered(DoSave(s).value)
  {
    var t := s.(persisted := Max(s.persisted, s.cursor), pc := Reading);
    WorkersLater(s.workers, s.persisted, t.persisted);
    if s.pc.ackAfter.Some? {
      EnqueueCovered(t, s.pc.ackAfter.value);
    }
  }

  lemma WorkerCovered(s: State, a: Action)
    requires AcksCovered(s) && IsWorkerAction(a) && DoWorker(s, a).Some?
    ensures AcksCovered(DoWorker(s, a).value)
  {
    assert AllAtMost(s.workers[a.worker].queue, s.persisted);
  }

  lemma SubscribeCovered(s: State, compacted: bool, leases: bool, consumer: bool)
    requires AcksCovered(s) && DoSubscribe(s, compacted, leases, consumer).Some?
    ensures AcksCovered(DoSubscribe(s, compacted, leases, consumer).value)
  {}

  /** One step: the bound survives exactly the steps that do not queue ahead. */
  lemma StepCovered(s: State, a: Action)
    requires Invariant(s) && AcksCovered(s) && Next(s, a).Some?
    ensures AcksCovered(Next(s, a).value) <==> !QueuesAhead(s, a)
  {
    match a
    case Notify(saveOutput) => NotifyCovered(s, saveOutput);
    case Ready(pos) => ReadyCovered(s, pos);
    case Save => SaveCovered(s);
    case Subscribe(compacted, leases, consumer) => SubscribeCovered(s, compacted, leases, consumer);
    case TakeAck(_) => WorkerCovered(s, a);
    case CoalesceAck(_) => WorkerCovered(s, a);
    case SendAck(_) => WorkerCovered(s, a);
    case _ =>
  }

  /** In every state of the run, acknowledgements are covered by the saved cursor. */
  predicate CoveredThroughout(s: State, actions: seq<Action>)
    requires Run(s, actions).Some?
  {
    AcksCovered(Run(s, actions).value) && (actions != [] ==> CoveredThroughout(s, actions[..|actions| - 1]))
  }

  predicate NeverQueuesAhead(s: State, actions: seq<Action>)
    requires Run(s, actions).Some?
  {
    actions != [] ==>
      var front := actions[..|actions| - 1];
      NeverQueuesAhead(s, front) && !QueuesAhead(Run(s, front).value, actions[|actions| - 1])
  }

  /** A whole run: acknowledgements stay covered throughout if and only if no step of it queues ahead. */
  lemma {:induction false} RunCoveredExactly(s: State, actions: seq<Action>)
    requires Init(s) && Run(s, actions).Some?
    ensures CoveredThroughout(s, actions) <==> NeverQueuesAhead(s, actions)
  {
    if actions != [] {
      var front := actions[..|actions| - 1];
      RunCoveredExactly(s, front);
      EveryRunKeepsInvariant(s, front);
      if CoveredThroughout(s, front) {
        StepCovered(Run(s, front).value, actions[|actions| - 1]);
      }
    }
  }

  // ---------- runs that show it ----------

  /** The workers can be scheduled to send an acknowledgement above the saved cursor. */
  ghost predicate CanAcknowledgeAhead(s: State) {
    exists actions :: WorkersOnly(actions) && Run(s, actions).Some? &&
                      !AllAtMost(Run(s, actions).value.acks, s.persisted)
  }

  lemma QueuedAheadCanBeSent(s: State, i: nat)
    requires i < |s.workers| && s.workers[i].queue != [] && s.workers[i].queue[0] > s.persisted
    ensures CanAcknowledgeAhead(s)
  {
    AcksCoveredExactly(s);
  }

  lemma SubscribeStep(s: State, leases: bool)
    requires s.stream.Closed? && s.pc == Reading && s.After() <= s.Head() && s.workers == []
    ensures Next(s, Subscribe(false, leases, leases)) ==
              Some(s.(stream := Opening(s.After(), s.Head(), false, leases), first := false,
                      skips := s.skips + {Skip(s.cursor, s.After())},
                      workers := if leases then ONE_WORKER else [], sender := if leases then Some(0) else None))
  {
    assert [] + ONE_WORKER == ONE_WORKER;
  }

  ghost predicate Reaches(s: State, t: State) { exists actions :: Run(s, actions) == Some(t) }

  lemma ReachesSelf(s: State)
    ensures Reaches(s, s)
  {
    assert Run(s, []) == Some(s);
  }

  lemma ReachesNext(s: State, t: State, a: Action, u: State)
    requires Reaches(s, t) && Next(t, a) == Some(u)
    ensures Reaches(s, u)
  {
    var actions :| Run(s, actions) == Some(t);
    RunPush(s, actions, a, t);
  }

  /** An uncompacted boundary in front of the cursor only opens the stream. */
  lemma ReadyStep(s: State)
    requires s.stream.Opening? && s.pc == Reading && !s.stream.compacted && s.cursor < s.stream.through
    ensures Next(s, Ready(0)) ==
              Some(s.(stream := Streaming(s.stream.after, if s.stream.leases then Some(s.stream.through) else None)))
  {}

  /** A consumer that has seen everything up to `saved`, in front of a journal. */
  function Fresh(journal: seq<Event>, saved: nat, requested: Option<nat>): State {
    State(Filter(None, true), journal, Closed, saved, saved, requested, true, Reading,
          [], {}, None, [], [], saved, saved, saved, [], {}, [])
  }

  const ONE_WORKER := [Worker([], None)]

  lemma FreshIsInit(journal: seq<Event>, saved: nat, requested: Option<nat>)
    requires Ordered(journal) && saved <= Fresh(journal, saved, requested).Head()
    ensures Init(Fresh(journal, saved, requested))
  {}

  /** The event that is printed and acknowledged first. */
  const EVENT := Event(1, OtherEvent)

  const OPENED := Fresh([EVENT], 0, None).(stream := Opening(0, 1, false, true), first := false,
                                           skips := {Skip(0, 0)}, workers := ONE_WORKER, sender := Some(0))

  const SUBSCRIBED := OPENED.(stream := Streaming(0, Some(1)))

  lemma SubscribedIsReached()
    ensures Reaches(Fresh([EVENT], 0, None), SUBSCRIBED)
  {
    var s := Fresh([EVENT], 0, None);
    ReachesSelf(s);
    SubscribeStep(s, true);
    assert {} + {Skip(0, 0)} == {Skip(0, 0)};
    ReachesNext(s, s, Subscribe(false, true, true), OPENED);
    ReadyStep(OPENED);
    ReachesNext(s, OPENED, Ready(0), SUBSCRIBED);
  }

  /** Event 1 is printed, its acknowledgement queued, its save still to come. */
  const NOTIFIED := SUBSCRIBED.Print(EVENT).(workers := [Worker([1], None)], pc := Saving(None))

  lemma NotifyStep()
    ensures Next(SUBSCRIBED, Notify(false)) == Some(NOTIFIED)
  {
    assert NextIndex(SUBSCRIBED.filter, SUBSCRIBED.journal, 0, 0) == 0;
    assert [] + [1] == [1] && [Worker([], None)][0 := Worker([1], None)] == [Worker([1], None)];
  }

  /**
   * The first way: a run prints event 1, and the workers can acknowledge it while the saved cursor is
   * still 0.
   */
  lemma AckCanOvertakeSavedCursor()
    ensures Init(Fresh([EVENT], 0, None)) && Reaches(Fresh([EVENT], 0, None), NOTIFIED) && NOTIFIED.persisted == 0
    ensures AcksCovered(SUBSCRIBED) && PrintsAhead(SUBSCRIBED, Notify(false))
    ensures CanAcknowledgeAhead(NOTIFIED)
  {
    FreshIsInit([EVENT], 0, None);
    SubscribedIsReached();
    NotifyStep();
    ReachesNext(Fresh([EVENT], 0, None), SUBSCRIBED, Notify(false), NOTIFIED);
    assert NextIndex(SUBSCRIBED.filter, SUBSCRIBED.journal, 0, 0) == 0;
    QueuedAheadCanBeSent(NOTIFIED, 0);
  }

  /** A piece of process output, which is printed without being saved at once. */
  const OUTPUT := Event(1, ProcessOutput(0))

  /** Printed by a subscription without acknowledgements, then disconnected. */
  const FOLLOWING := Fresh([OUTPUT], 0, None).(stream := Streaming(0, None), first := false, skips := {Skip(0, 0)})
  const PRINTED := FOLLOWING.Print(OUTPUT)
  const DISCONNECTED := PRINTED.(stream := Closed)

  /** Subscribed again, now with a worker; the boundary is what the client has printed. */
  const REOPENED := DISCONNECTED.(stream := Opening(1, 1, false, true), workers := ONE_WORKER, sender := Some(0),
                                  skips := {Skip(0, 0), Skip(1, 1)})
  const READIED := REOPENED.(stream := Streaming(1, Some(1)), workers := [Worker([1], None)])

  lemma FollowingIsReached()
    ensures Reaches(Fresh([OUTPUT], 0, None), FOLLOWING)
  {
    var s := Fresh([OUTPUT], 0, None);
    var t := s.(stream := Opening(0, 1, false, false), first := false, skips := {Skip(0, 0)});
    ReachesSelf(s);
    SubscribeStep(s, false);
    assert {} + {Skip(0, 0)} == {Skip(0, 0)};
    ReachesNext(s, s, Subscribe(false, false, false), t);
    ReadyStep(t);
    ReachesNext(s, t, Ready(0), FOLLOWING);
  }

  lemma PrintStep()
    ensures Next(FOLLOWING, Notify(false)) == Some(PRINTED)
  {
    assert NextIndex(FOLLOWING.filter, FOLLOWING.journal, 0, 0) == 0;
    assert HandleEvent(FOLLOWING, OUTPUT, false) == PRINTED;
  }

  lemma DisconnectStep()
    ensures Next(PRINTED, Disconnect) == Some(DISCONNECTED)
  {}

  lemma PrintedIsReached()
    ensures Reaches(Fresh([OUTPUT], 0, None), DISCONNECTED)
  {
    var s, following, printed, disconnected := Fresh([OUTPUT], 0, None), FOLLOWING, PRINTED, DISCONNECTED;
    FollowingIsReached();
    PrintStep();
    DisconnectStep();
    ReachesNext(s, following, Notify(false), printed);
    ReachesNext(s, printed, Disconnect, disconnected);
  }

  lemma ReadiedIsReached()
    ensures Reaches(Fresh([OUTPUT], 0, None), REOPENED) && Next(REOPENED, Ready(0)) == Some(READIED)
    ensures Reaches(Fresh([OUTPUT], 0, None), READIED)
  {
    var s := Fresh([OUTPUT], 0, None);
    PrintedIsReached();
    SubscribeStep(DISCONNECTED, true);
    assert {Skip(0, 0)} + {Skip(1, 1)} == {Skip(0, 0), Skip(1, 1)};
    ReachesNext(s, DISCONNECTED, Subscribe(false, true, true), REOPENED);
    assert [] + [1] == [1] && [Worker([], None)][0 := Worker([1], None)] == [Worker([1], None)];
    ReachesNext(s, REOPENED, Ready(0), READIED);
  }

  /**
   * The second way: output was printed but not saved, and the boundary of the next subscription is
   * acknowledged although the saved cursor is still 0.
   */
  lemma BoundaryCanOvertakeSavedCursor()
    ensures Init(Fresh([OUTPUT], 0, None)) && Reaches(Fresh([OUTPUT], 0, None), READIED) && READIED.persisted == 0
    ensures AcksCovered(REOPENED) && ReadiesAhead(REOPENED, Ready(0))
    ensures CanAcknowledgeAhead(READIED)
  {
    FreshIsInit([OUTPUT], 0, None);
    ReadiedIsReached();
    QueuedAheadCanBeSent(READIED, 0);
  }

  // ---------- a requested start below the saved cursor ----------

  const OLD_EVENT := Event(1, OtherEvent)
  const NEW_EVENT := Event(2, OtherEvent)

  /** Event 1 is saved as seen, and the caller asks for everything from the beginning. */
  const RESTARTED := Fresh([OLD_EVENT, NEW_EVENT], 1, Some(0))
  const REPLAYING := RESTARTED.(stream := Streaming(0, None), first := false, skips := {Skip(1, 0)})
  const PAST_OLD := REPLAYING.(stream := Streaming(1, None))
  const CAUGHT_UP := PAST_OLD.Print(NEW_EVENT).(pc := Saving(None))

  lemma ReplayingIsReached()
    ensures Reaches(RESTARTED, REPLAYING)
  {
    var t := RESTARTED.(stream := Opening(0, 2, false, false), first := false, skips := {Skip(1, 0)});
    ReachesSelf(RESTARTED);
    SubscribeStep(RESTARTED, false);
    assert {} + {Skip(1, 0)} == {Skip(1, 0)};
    ReachesNext(RESTARTED, RESTARTED, Subscribe(false, false, false), t);
    ReadyStep(t);
    ReachesNext(RESTARTED, t, Ready(0), REPLAYING);
  }

  /** The server sends event 1 again, and the client prints only event 2. */
  lemma OldStartPrintsNothingOld()
    ensures Init(RESTARTED) && RESTARTED.requested == Some(0) && RESTARTED.persisted == 1
    ensures Reaches(RESTARTED, CAUGHT_UP) && CAUGHT_UP.printed == [NEW_EVENT] && CAUGHT_UP.cursor == 2
  {
    FreshIsInit([OLD_EVENT, NEW_EVENT], 1, Some(0));
    ReplayingIsReached();
    var journal := [OLD_EVENT, NEW_EVENT];
    assert NextIndex(REPLAYING.filter, journal, 0, 0) == 0;
    ReachesNext(RESTARTED, REPLAYING, Notify(false), PAST_OLD);
    assert NextIndex(PAST_OLD.filter, journal, 1, 0) == NextIndex(PAST_OLD.filter, journal, 1, 1) == 1;
    assert HandleEvent(PAST_OLD, NEW_EVENT, false) == CAUGHT_UP;
    ReachesNext(RESTARTED, PAST_OLD, Notify(false), CAUGHT_UP);
  }
}
