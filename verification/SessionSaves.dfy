/**
 * What the processes get done through the shared cursor file: a save, and a newly created session, is stored
 * with exactly the values it started from and is never taken back; and no process waits for ever.
 */
module SessionSaves {
  import opened Base
  import opened SessionStore
  import opened SessionProtocol

  // ---------- what is stored ----------

  /** The process carries `state` towards the file. */
  predicate Pending(pc: Pc, state: SavedSession) {
    || ((pc.Storing? || pc.StoreLoaded?) && pc.created == state)
    || ((pc.SaveAwaitingLock? || pc.SaveHolding? || pc.SaveLoaded?) && pc.state == state)
  }

  /** The server's answer, or a cursor to save for the attached session, sets `state` on its way. */
  predicate Starts(u: State, a: Action, p: nat, state: SavedSession) {
    || a == Answer(p, state)
    || (&& a == BeginSave(p, state.lastEventId)
        && p < |u.processes| && u.processes[p].pc.Attached? && u.processes[p].pc.state.sessionId == state.sessionId)
  }

  lemma StartIsPending(u: State, a: Action, p: nat, state: SavedSession)
    requires Starts(u, a, p, state) && Next(u, a).Some?
    ensures p < |u.processes| && p < |Next(u, a).value.processes|
    ensures Pending(Next(u, a).value.processes[p].pc, state)
    ensures Next(u, a).value.processes[p].key == u.processes[p].key
  {}

  /** Until it is published, only the end of the process can take a pending state off its way. */
  lemma PendingNext(u: State, a: Action, p: nat, state: SavedSession)
    requires p < |u.processes| && Next(u, a).Some? && a != Publish(p)
    requires u.processes[p].pc.Ended? || Pending(u.processes[p].pc, state)
    ensures var t := Next(u, a).value;
            && p < |t.processes| && t.processes[p].key == u.processes[p].key
            && (t.processes[p].pc.Ended? || Pending(t.processes[p].pc, state))
  {}

  lemma {:induction false} RunPrefix(s: State, a: seq<Action>, b: seq<Action>)
    requires Run(s, a + b).Some?
    ensures Run(s, a).Some? && Run(Run(s, a).value, b) == Run(s, a + b)
    decreases |b|
  {
    if b == [] {
      assert a + b == a;
    } else {
      assert (a + b)[..|a + b| - 1] == a + b[..|b| - 1];
      RunPrefix(s, a, b[..|b| - 1]);
    }
  }

  lemma {:induction false} PendingAlong(u: State, between: seq<Action>, p: nat, state: SavedSession)
    requires p < |u.processes| && Run(u, between).Some? && Publish(p) !in between
    requires u.processes[p].pc.Ended? || Pending(u.processes[p].pc, state)
    ensures var t := Run(u, between).value;
            && p < |t.processes| && t.processes[p].key == u.processes[p].key
            && (t.processes[p].pc.Ended? || Pending(t.processes[p].pc, state))
  {
    if between != [] {
      var front := between[..|between| - 1];
      PendingAlong(u, front, p, state);
      PendingNext(Run(u, front).value, between[|between| - 1], p, state);
    }
  }

  /** The key's entry names the session and has reached the cursor. */
  predicate Holds(file: SavedSessions, key: Key, state: SavedSession) {
    var entry := Entry(file, key);
    entry.Some? && entry.value.sessionId == state.sessionId && entry.value.lastEventId >= state.lastEventId
  }

  /** One publication: exactly one save joins, the writer's entry holds it, all other entries are untouched. */
  ghost predicate Stores(u: State, v: State, key: Key, state: SavedSession) {
    && v.published == u.published + [Save(key, state)] && Holds(v.file, key, state)
    && forall other :: other != key ==> Entry(v.file, other) == Entry(u.file, other)
  }

  lemma PublishStores(u: State, p: nat, state: SavedSession)
    requires Invariant(u) && p < |u.processes| && Next(u, Publish(p)).Some? && Pending(u.processes[p].pc, state)
    ensures Stores(u, Next(u, Publish(p)).value, u.processes[p].key, state)
  {
    var key := u.processes[p].key;
    assert ProcessOk(u.file, u.returned, u.processes[p]);
    InsertStores(u.file, key, state);
    forall other | other != key ensures Entry(Insert(u.file, key, state), other) == Entry(u.file, other) {
      InsertTouchesOneEntry(u.file, key, state, other);
    }
  }

  /** What an entry holds it keeps: later writers under the key save the same session. */
  lemma HoldsNext(u: State, a: Action, key: Key, state: SavedSession)
    requires Invariant(u) && Next(u, a).Some? && Holds(u.file, key, state)
    ensures Holds(Next(u, a).value.file, key, state)
  {
    if a.Publish? {
      var q := u.processes[a.p];
      var written := if q.pc.StoreLoaded? then q.pc.created else q.pc.state;
      assert ProcessOk(u.file, u.returned, q);
      InsertStores(u.file, q.key, written);
      InsertTouchesOneEntry(u.file, q.key, written, key);
    }
  }

  lemma {:induction false} HoldsAlong(u: State, after: seq<Action>, key: Key, state: SavedSession)
    requires Invariant(u) && Run(u, after).Some? && Holds(u.file, key, state)
    ensures Invariant(Run(u, after).value) && Holds(Run(u, after).value.file, key, state)
  {
    if after != [] {
      var front := after[..|after| - 1];
      HoldsAlong(u, front, key, state);
      HoldsNext(Run(u, front).value, after[|after| - 1], key, state);
      KeepNext(Run(u, front).value, after[|after| - 1]);
    }
  }

  /**
   * In every run, the publication that completes a save or a creation adds exactly one save, of the session and
   * the cursor it started with, and in every later state the key's entry is of that session and has reached
   * that cursor.
   */
  lemma StartedIsStored(s: State, before: seq<Action>, start: Action, between: seq<Action>, after: seq<Action>,
                        p: nat, state: SavedSession)
    returns (key: Key, u: State, v: State)
    requires Init(s) && Run(s, before + [start] + between + [Publish(p)] + after).Some? && Publish(p) !in between
    requires Run(s, before).Some? && Starts(Run(s, before).value, start, p, state)
    ensures p < |Run(s, before).value.processes| && key == Run(s, before).value.processes[p].key
    ensures Run(s, before + [start] + between) == Some(u)
    ensures Run(s, before + [start] + between + [Publish(p)]) == Some(v)
    ensures Stores(u, v, key, state)
    ensures Holds(Run(s, before + [start] + between + [Publish(p)] + after).value.file, key, state)
  {
    var started := before + [start];
    var ready := started + between;
    var done := ready + [Publish(p)];
    RunPrefix(s, done, after);
    RunPrefix(s, ready, [Publish(p)]);
    RunPrefix(s, started, between);
    assert started[..|before|] == before;
    StartIsPending(Run(s, before).value, start, p, state);
    PendingAlong(Run(s, started).value, between, p, state);
    key, u, v := Run(s, before).value.processes[p].key, Run(s, ready).value, Run(s, done).value;
    assert done[..|ready|] == ready;
    EveryRunKeepsInvariant(s, ready);
    EveryRunKeepsInvariant(s, done);
    PublishStores(u, p, state);
    HoldsAlong(v, after, key, state);
  }

  // ---------- what is found ----------

  /** In every state, a new process of a key that sees a session gets exactly that one, and nothing else changes. */
  lemma NewProcessAttaches(u: State, key: Key) returns (spawned: State, found: State)
    requires Lookup(u.file, key).Some?
    ensures Next(u, Spawn(key)) == Some(spawned) && Next(spawned, FastRead(|u.processes|)) == Some(found)
    ensures var state := Lookup(u.file, key).value;
            found == u.(processes := u.processes + [Process(key, Attached(state))],
                        returned := u.returned + [Returned(key, state.sessionId)])
  {
    var state, n := Lookup(u.file, key).value, |u.processes|;
    spawned := u.(processes := u.processes + [Process(key, Starting)]);
    found := Attach(spawned, n, AwaitingLock);
    assert spawned.processes[n := Process(key, Attached(state))] == u.processes + [Process(key, Attached(state))];
  }

  /** A process that finds the session under the lock gets it and frees the lock; else it goes on to create one. */
  lemma RecheckFinds(u: State, p: nat)
    requires p < |u.processes| && u.processes[p].pc.Rechecking?
    ensures Next(u, Recheck(p)).Some?
    ensures var v := Next(u, Recheck(p)).value; var seen := Lookup(u.file, u.processes[p].key);
            && (seen.Some? ==> v.processes[p].pc == Attached(seen.value) && v.lock.None?)
            && (seen.None? ==> v.processes[p].pc.Opening? && v.lock == u.lock)
            && v.file == u.file && v.sent == u.sent && OthersSame(u, v, p)
  {}

  /** In every run, a request to open a session leaves only while its key sees no saved one. */
  lemma OpenOnlyWithoutEntry(s: State, actions: seq<Action>, u: State, p: nat)
    requires Init(s) && Run(s, actions) == Some(u) && Next(u, SendOpen(p)).Some?
    ensures p < |u.processes| && Lookup(u.file, u.processes[p].key).None?
  {
    EveryRunKeepsInvariant(s, actions);
    assert ProcessOk(u.file, u.returned, u.processes[p]);
  }

  function OpensIn(actions: seq<Action>): nat {
    if actions == [] then 0
    else OpensIn(actions[..|actions| - 1]) + if actions[|actions| - 1].SendOpen? then 1 else 0
  }

  /** Every OPEN_SESSION of a run is on record. */
  lemma {:induction false} EveryOpenIsRecorded(s: State, actions: seq<Action>)
    requires Run(s, actions).Some?
    ensures |Run(s, actions).value.sent| == |s.sent| + OpensIn(actions)
  {
    if actions != [] {
      EveryOpenIsRecorded(s, actions[..|actions| - 1]);
    }
  }

  predicate OthersSame(u: State, v: State, p: nat) {
    && |v.processes| == |u.processes|
    && forall r :: 0 <= r < |u.processes| && r != p ==> v.processes[r] == u.processes[r]
  }

  // ---------- nobody waits for ever ----------

  predicate IsProgress(a: Action) { !a.Spawn? && !a.Fail? && !a.BeginSave? }

  /** `actions` continued without failures, new processes or new saves. */
  predicate Continues(s: State, actions: seq<Action>, more: seq<Action>, u: State) {
    && Run(s, more) == Some(u) && Invariant(u)
    && actions <= more && forall k :: |actions| <= k < |more| ==> IsProgress(more[k])
  }

  lemma ContinueWith(s: State, actions: seq<Action>, more: seq<Action>, u: State, a: Action)
    requires Continues(s, actions, more, u) && IsProgress(a) && Next(u, a).Some?
    ensures Continues(s, actions, more + [a], Next(u, a).value)
  {
    assert (more + [a])[..|more|] == more;
    KeepNext(u, a);
  }

  /** How many steps separate a lock holder from dropping the lock. */
  function Remaining(pc: Pc): nat {
    match pc
    case Rechecking => 4
    case Opening => 3
    case Storing(_) => 2
    case SaveHolding(_) => 2
    case _ => 1
  }

  /** The lock holder's next step. */
  function HolderStep(p: nat, pc: Pc, answer: SavedSession): Action {
    match pc
    case Rechecking => Recheck(p)
    case Opening => Answer(p, answer)
    case Storing(_) => Load(p)
    case SaveHolding(_) => Load(p)
    case _ => Publish(p)
  }

  lemma HolderSteps(u: State, p: nat, answer: SavedSession)
    requires Invariant(u) && u.lock == Some(p)
    ensures p < |u.processes|
    ensures var a := HolderStep(p, u.processes[p].pc, answer);
            && IsProgress(a) && Next(u, a).Some?
            && var v := Next(u, a).value;
               && OthersSame(u, v, p)
               && (|| (v.lock.None? && v.processes[p].pc.Attached?)
                   || (v.lock == Some(p) && Remaining(v.processes[p].pc) < Remaining(u.processes[p].pc)))
  {
    assert u.processes[p].pc.Holds();
  }

  /** Whoever holds the lock can finish by itself, whatever the server answers. */
  lemma {:induction false} Release(s: State, actions: seq<Action>, more: seq<Action>, u: State, answer: SavedSession)
    returns (more': seq<Action>, u': State)
    requires Continues(s, actions, more, u) && u.lock.Some?
    ensures Continues(s, actions, more', u') && u'.lock.None?
    ensures u.lock.value < |u.processes| && OthersSame(u, u', u.lock.value)
    ensures u'.processes[u.lock.value].pc.Attached?
    decreases if u.lock.value < |u.processes| then Remaining(u.processes[u.lock.value].pc) else 0
  {
    var p := u.lock.value;
    HolderSteps(u, p, answer);
    var a := HolderStep(p, u.processes[p].pc, answer);
    ContinueWith(s, actions, more, u, a);
    more', u' := more + [a], Next(u, a).value;
    if u'.lock.Some? {
      more', u' := Release(s, actions, more', u', answer);
    }
  }

  lemma WaitingAcquires(u: State, p: nat)
    requires p < |u.processes| && u.lock.None?
    requires u.processes[p].pc.AwaitingLock? || u.processes[p].pc.SaveAwaitingLock?
    ensures Next(u, Acquire(p)).Some? && Next(u, Acquire(p)).value.lock == Some(p)
  {}

  lemma StartingReads(u: State, p: nat)
    requires p < |u.processes| && u.processes[p].pc.Starting?
    ensures Next(u, FastRead(p)).Some?
    ensures var v := Next(u, FastRead(p)).value;
            p < |v.processes| && (v.processes[p].pc.Attached? || v.processes[p].pc.AwaitingLock?)
  {}

  /** A process that carried a state and is attached again has published it. */
  lemma AttachedHasPublished(u: State, tail: seq<Action>, p: nat, state: SavedSession)
    requires p < |u.processes| && Pending(u.processes[p].pc, state)
    requires Run(u, tail).Some? && p < |Run(u, tail).value.processes| && Run(u, tail).value.processes[p].pc.Attached?
    ensures Publish(p) in tail
  {
    if Publish(p) !in tail {
      PendingAlong(u, tail, p, state);
    }
  }

  lemma TailRuns(s: State, actions: seq<Action>, more: seq<Action>)
    requires actions <= more && Run(s, more).Some?
    ensures Run(s, actions).Some? && Run(Run(s, actions).value, more[|actions|..]) == Run(s, more)
  {
    assert actions + more[|actions|..] == more;
    RunPrefix(s, actions, more[|actions|..]);
  }

  /**
   * From every reachable state every living process can come to hold a session, and will then have published
   * what it carried, without any process failing and whatever the server answers.
   */
  lemma CanFinish(s: State, actions: seq<Action>, p: nat, answer: SavedSession)
    returns (more: seq<Action>, u: State)
    requires Init(s) && Run(s, actions).Some?
    requires p < |Run(s, actions).value.processes| && !Run(s, actions).value.processes[p].pc.Ended?
    ensures Continues(s, actions, more, u) && p < |u.processes| && u.processes[p].pc.Attached?
    ensures forall state :: Pending(Run(s, actions).value.processes[p].pc, state) ==> Publish(p) in more[|actions|..]
  {
    EveryRunKeepsInvariant(s, actions);
    var t := Run(s, actions).value;
    more, u := actions, t;
    if u.processes[p].pc.Starting? {
      StartingReads(u, p);
      ContinueWith(s, actions, more, u, FastRead(p));
      more, u := more + [FastRead(p)], Next(u, FastRead(p)).value;
    }
    if u.processes[p].pc.AwaitingLock? || u.processes[p].pc.SaveAwaitingLock? {
      if u.lock.Some? {
        more, u := Release(s, actions, more, u, answer);
      }
      WaitingAcquires(u, p);
      ContinueWith(s, actions, more, u, Acquire(p));
      more, u := more + [Acquire(p)], Next(u, Acquire(p)).value;
    }
    if u.processes[p].pc.Holds() {
      more, u := Release(s, actions, more, u, answer);
    }
    TailRuns(s, actions, more);
    forall state | Pending(t.processes[p].pc, state) ensures Publish(p) in more[|actions|..] {
      AttachedHasPublished(t, more[|actions|..], p, state);
    }
  }
}
