/**
 * First-session creation by concurrent client processes.
 *
 * Any number of processes, for any servers and consumer ids, run `ensure_session` and later save
 * cursors, all through one lock file and one cursor file.  A process may crash between any two
 * steps; the operating system then releases its lock.  The server's answer to OPEN_SESSION is
 * arbitrary.
 */
module SessionProtocol {
  import opened Base
  import opened SessionStore

  datatype Pc =
    | Starting
    | AwaitingLock
    | Rechecking
    | Opening
    | Storing(created: SavedSession)
    | StoreLoaded(created: SavedSession, seen: SavedSessions)
    | Attached(state: SavedSession)
    | SaveAwaitingLock(state: SavedSession)
    | SaveHolding(state: SavedSession)
    | SaveLoaded(state: SavedSession, seen: SavedSessions)
    | Ended
  {
    predicate Holds() {
      Rechecking? || Opening? || Storing? || StoreLoaded? || SaveHolding? || SaveLoaded?
    }

    /** Between the re-read that found nothing and the publication of the new entry. */
    predicate Creating() { Opening? || Storing? || StoreLoaded? }

    /** `ensure_session` has returned. */
    predicate Returned() { Attached? || SaveAwaitingLock? || SaveHolding? || SaveLoaded? }
  }

  datatype Process = Process(key: Key, pc: Pc)

  /** What `ensure_session` returned to a caller. */
  datatype Returned = Returned(key: Key, sessionId: nat)

  /** An OPEN_SESSION request, and whether a saved entry was visible to its sender when it left. */
  datatype Sent = Sent(key: Key, entryVisible: bool)

  datatype State = State(
    initial: SavedSessions,
    file: SavedSessions,
    lock: Option<nat>,
    processes: seq<Process>,
    published: seq<Save>,
    returned: seq<Returned>,
    sent: seq<Sent>)
  {
    function With(p: nat, pc: Pc): State
      requires p < |processes|
    {
      this.(processes := processes[p := processes[p].(pc := pc)])
    }
  }

  datatype Action =
    | Spawn(key: Key)
    | FastRead(p: nat)
    | Acquire(p: nat)
    | Recheck(p: nat)
    | SendOpen(p: nat)
    | Answer(p: nat, created: SavedSession)
    | Load(p: nat)
    | Publish(p: nat)
    | BeginSave(p: nat, lastEventId: nat)
    | Fail(p: nat)

  /** Reading the file: return what is visible, or go on as `otherwise` says. */
  function Attach(s: State, p: nat, otherwise: Pc): State
    requires p < |s.processes|
  {
    var key := s.processes[p].key;
    match Lookup(s.file, key)
    case Some(state) => s.With(p, Attached(state)).(returned := s.returned + [Returned(key, state.sessionId)],
                                                    lock := if s.processes[p].pc.Holds() then None else s.lock)
    case None => s.With(p, otherwise)
  }

  /** Writing the merged file over the loaded one, then dropping the lock. */
  function Write(s: State, p: nat, seen: SavedSessions, state: SavedSession): State
    requires p < |s.processes|
  {
    var key := s.processes[p].key;
    s.With(p, Attached(state)).(file := Insert(seen, key, state), lock := None,
                                published := s.published + [Save(key, state)])
  }

  /** One step of process `a.p`, or `None` where it cannot happen. */
  function Next(s: State, a: Action): Option<State> {
    if a.Spawn? then Some(s.(processes := s.processes + [Process(a.key, Starting)]))
    else if a.p >= |s.processes| then None
    else
      var key, pc := s.processes[a.p].key, s.processes[a.p].pc;
      match a
      case FastRead(p) => if pc.Starting? then Some(Attach(s, p, AwaitingLock)) else None
      case Acquire(p) =>
        if s.lock.Some? then None
        else if pc.AwaitingLock? then Some(s.With(p, Rechecking).(lock := Some(p)))
        else if pc.SaveAwaitingLock? then Some(s.With(p, SaveHolding(pc.state)).(lock := Some(p)))
        else None
      case Recheck(p) => if pc.Rechecking? then Some(Attach(s, p, Opening)) else None
      case SendOpen(p) =>
        if pc.Opening? then Some(s.(sent := s.sent + [Sent(key, Lookup(s.file, key).Some?)])) else None
      case Answer(p, created) => if pc.Opening? then Some(s.With(p, Storing(created))) else None
      case Load(p) =>
        if pc.Storing? then Some(s.With(p, StoreLoaded(pc.created, s.file)))
        else if pc.SaveHolding? then Some(s.With(p, SaveLoaded(pc.state, s.file)))
        else None
      case Publish(p) =>
        if pc.StoreLoaded? then
          var t := Write(s, p, pc.seen, pc.created);
          Some(t.(returned := t.returned + [Returned(key, pc.created.sessionId)]))
        else if pc.SaveLoaded? then Some(Write(s, p, pc.seen, pc.state))
        else None
      case BeginSave(p, lastEventId) =>
        if pc.Attached? && lastEventId >= pc.state.lastEventId
        then Some(s.With(p, SaveAwaitingLock(pc.state.(lastEventId := lastEventId)))) else None
      case Fail(p) => Some(s.With(p, Ended).(lock := if pc.Holds() then None else s.lock))
  }

  function Run(s: State, actions: seq<Action>): Option<State> {
    if actions == [] then Some(s)
    else
      var front := Run(s, actions[..|actions| - 1]);
      if front.None? then None else Next(front.value, actions[|actions| - 1])
  }

  predicate Init(s: State) {
    && s.file == s.initial && s.lock.None? && s.processes == [] && s.published == [] && s.returned == [] && s.sent == []
  }

  // ---------- invariant ----------

  /** Exactly the lock holder is in a section that needs the lock. */
  predicate Exclusive(processes: seq<Process>, lock: Option<nat>) {
    && (lock.Some? ==> lock.value < |processes|)
    && forall p :: 0 <= p < |processes| ==> (processes[p].pc.Holds() <==> lock == Some(p))
  }

  /** A visible session stays visible: every returned session is what its key sees. */
  predicate Stable(file: SavedSessions, returned: seq<Returned>) {
    forall r :: r in returned ==> Lookup(file, r.key).Some? && Lookup(file, r.key).value.sessionId == r.sessionId
  }

  predicate ProcessOk(file: SavedSessions, returned: seq<Returned>, q: Process) {
    && (q.pc.Creating() ==> Lookup(file, q.key).None?)
    && (q.pc.StoreLoaded? || q.pc.SaveLoaded? ==> q.pc.seen == file)
    && (q.pc.Returned() ==> Returned(q.key, q.pc.state.sessionId) in returned)
  }

  predicate AllOk(file: SavedSessions, returned: seq<Returned>, processes: seq<Process>) {
    forall p :: 0 <= p < |processes| ==> ProcessOk(file, returned, processes[p])
  }

  predicate NoneVisible(sent: seq<Sent>) {
    forall m :: m in sent ==> !m.entryVisible
  }

  predicate Invariant(s: State) {
    && Exclusive(s.processes, s.lock)
    && AllOk(s.file, s.returned, s.processes)
    && Stable(s.file, s.returned)
    && s.file == InsertAll(s.initial, s.published)
    && NoneVisible(s.sent)
  }

  /** Storing an entry where none was visible, or the visible session again, leaves every visible session visible. */
  lemma InsertKeepsVisible(f: SavedSessions, k: Key, state: SavedSession, other: Key)
    requires Lookup(f, k).Some? ==> Lookup(f, k).value.sessionId == state.sessionId
    ensures Lookup(Insert(f, k, state), k).Some? && Lookup(Insert(f, k, state), k).value.sessionId == state.sessionId
    ensures Lookup(f, other).Some? ==>
              && Lookup(Insert(f, k, state), other).Some?
              && Lookup(Insert(f, k, state), other).value.sessionId == Lookup(f, other).value.sessionId
  {
    InsertTouchesOneEntry(f, k, state, k);
    InsertTouchesOneEntry(f, k, state, other);
    InsertTouchesOneEntry(f, k, state, Key(k.server, None));
    InsertTouchesOneEntry(f, k, state, Key(other.server, None));
  }

  lemma StableInsert(f: SavedSessions, returned: seq<Returned>, k: Key, state: SavedSession)
    requires Stable(f, returned)
    requires Lookup(f, k).Some? ==> Lookup(f, k).value.sessionId == state.sessionId
    ensures Stable(Insert(f, k, state), returned + [Returned(k, state.sessionId)])
    ensures Stable(Insert(f, k, state), returned)
  {
    forall r | r in returned + [Returned(k, state.sessionId)]
      ensures Lookup(Insert(f, k, state), r.key).Some?
      ensures Lookup(Insert(f, k, state), r.key).value.sessionId == r.sessionId
    {
      InsertKeepsVisible(f, k, state, r.key);
    }
  }

  lemma InsertAllPush(f: SavedSessions, saves: seq<Save>, last: Save)
    ensures InsertAll(f, saves + [last]) == Insert(InsertAll(f, saves), last.key, last.state)
  {
    assert (saves + [last])[..|saves|] == saves;
  }

  lemma KeepAttach(s: State, p: nat, otherwise: Pc)
    requires Invariant(s) && p < |s.processes|
    requires || (s.processes[p].pc.Starting? && otherwise == AwaitingLock)
             || (s.processes[p].pc.Rechecking? && otherwise == Opening)
    ensures Invariant(Attach(s, p, otherwise))
  {}

  /** Nobody but the writer is in a section that depends on the file's contents. */
  lemma OthersUnaffected(s: State, p: nat, file: SavedSessions, returned: seq<Returned>, r: nat)
    requires Invariant(s) && p < |s.processes| && s.processes[p].pc.Holds() && r < |s.processes| && r != p
    requires forall x :: x in s.returned ==> x in returned
    ensures ProcessOk(file, returned, s.processes[r])
  {
    assert ProcessOk(s.file, s.returned, s.processes[r]);
    assert !s.processes[r].pc.Holds();
  }

  /** The state of the others and of the writer after the write. */
  lemma AllOkAfterWrite(s: State, p: nat, t: State, state: SavedSession)
    requires Invariant(s) && p < |s.processes| && s.processes[p].pc.Holds()
    requires t.processes == s.processes[p := s.processes[p].(pc := Attached(state))]
    requires forall x :: x in s.returned ==> x in t.returned
    requires Returned(s.processes[p].key, state.sessionId) in t.returned
    ensures AllOk(t.file, t.returned, t.processes)
  {
    forall r | 0 <= r < |t.processes| ensures ProcessOk(t.file, t.returned, t.processes[r]) {
      if r != p {
        OthersUnaffected(s, p, t.file, t.returned, r);
      }
    }
  }

  /** The lock holder's write: nobody else can be creating, and its copy of the file is current. */
  lemma KeepWrite(s: State, p: nat)
    requires Invariant(s) && p < |s.processes|
    requires s.processes[p].pc.StoreLoaded? || s.processes[p].pc.SaveLoaded?
    ensures Invariant(Next(s, Publish(p)).value)
  {
    var q := s.processes[p];
    var state := if q.pc.StoreLoaded? then q.pc.created else q.pc.state;
    assert ProcessOk(s.file, s.returned, q);
    assert q.pc.SaveLoaded? ==> Returned(q.key, state.sessionId) in s.returned;
    StableInsert(s.file, s.returned, q.key, state);
    InsertAllPush(s.initial, s.published, Save(q.key, state));
    AllOkAfterWrite(s, p, Next(s, Publish(p)).value, state);
  }

  /** A process moving on by itself, possibly taking or dropping the lock. */
  lemma KeepMove(s: State, p: nat, pc: Pc, lock: Option<nat>)
    requires Invariant(s) && p < |s.processes|
    requires ProcessOk(s.file, s.returned, Process(s.processes[p].key, pc))
    requires pc.Holds() <==> lock == Some(p)
    requires lock == s.lock || (s.lock.None? && lock == Some(p)) || (s.lock == Some(p) && lock.None?)
    ensures Invariant(s.With(p, pc).(lock := lock))
  {}

  lemma KeepLocal(s: State, a: Action)
    requires a.Acquire? || a.Answer? || a.Load? || a.BeginSave? || a.Fail?
    requires Invariant(s) && Next(s, a).Some?
    ensures Invariant(Next(s, a).value)
  {
    var q := s.processes[a.p];
    assert ProcessOk(s.file, s.returned, q);
    match a
    case Acquire(p) => KeepMove(s, p, if q.pc.AwaitingLock? then Rechecking else SaveHolding(q.pc.state), Some(p));
    case Answer(p, created) => KeepMove(s, p, Storing(created), s.lock);
    case Load(p) =>
      var loaded := if q.pc.Storing? then StoreLoaded(q.pc.created, s.file) else SaveLoaded(q.pc.state, s.file);
      KeepMove(s, p, loaded, s.lock);
    case BeginSave(p, lastEventId) => KeepMove(s, p, SaveAwaitingLock(q.pc.state.(lastEventId := lastEventId)), s.lock);
    case Fail(p) => KeepMove(s, p, Ended, if q.pc.Holds() then None else s.lock);
  }

  lemma KeepNext(s: State, a: Action)
    requires Invariant(s) && Next(s, a).Some?
    ensures Invariant(Next(s, a).value)
  {
    match a
    case FastRead(p) => KeepAttach(s, p, AwaitingLock);
    case Recheck(p) => KeepAttach(s, p, Opening);
    case Publish(p) => KeepWrite(s, p);
    case Spawn(key) =>
    case SendOpen(p) => assert ProcessOk(s.file, s.returned, s.processes[p]);
    case Acquire(_) => KeepLocal(s, a);
    case Answer(_, _) => KeepLocal(s, a);
    case Load(_) => KeepLocal(s, a);
    case BeginSave(_, _) => KeepLocal(s, a);
    case Fail(_) => KeepLocal(s, a);
  }

  lemma {:induction false} EveryRunKeepsInvariant(s: State, actions: seq<Action>)
    requires Init(s) && Run(s, actions).Some?
    ensures Invariant(Run(s, actions).value)
  {
    if actions != [] {
      EveryRunKeepsInvariant(s, actions[..|actions| - 1]);
      KeepNext(Run(s, actions[..|actions| - 1]).value, actions[|actions| - 1]);
    }
  }

  // ---------- theorems ----------

  /** All processes of one namespace that get a session get the same one, in every interleaving. */
  lemma OneSessionPerNamespace(s: State, actions: seq<Action>, x: Returned, y: Returned)
    requires Init(s) && Run(s, actions).Some?
    requires x in Run(s, actions).value.returned && y in Run(s, actions).value.returned && x.key == y.key
    ensures x.sessionId == y.sessionId
  {
    EveryRunKeepsInvariant(s, actions);
  }

  /** No OPEN_SESSION leaves a process that could have seen a saved entry. */
  lemma NoOpenOnceSaved(s: State, actions: seq<Action>, m: Sent)
    requires Init(s) && Run(s, actions).Some? && m in Run(s, actions).value.sent
    ensures !m.entryVisible
  {
    EveryRunKeepsInvariant(s, actions);
  }

  lemma {:induction false} InitialKept(s: State, actions: seq<Action>)
    requires Run(s, actions).Some?
    ensures Run(s, actions).value.initial == s.initial
  {
    if actions != [] {
      InitialKept(s, actions[..|actions| - 1]);
    }
  }

  /** Every published save names a session that was returned for its key. */
  predicate SavesReturned(published: seq<Save>, returned: seq<Returned>) {
    forall m :: m in published ==> Returned(m.key, m.state.sessionId) in returned
  }

  /** What a key saw before the run it still sees. */
  ghost predicate VisibleKept(initial: SavedSessions, file: SavedSessions) {
    forall k :: Lookup(initial, k).Some? ==>
      Lookup(file, k).Some? && Lookup(file, k).value.sessionId == Lookup(initial, k).value.sessionId
  }

  lemma VisibleKeptByInsert(initial: SavedSessions, f: SavedSessions, k: Key, state: SavedSession)
    requires VisibleKept(initial, f)
    requires Lookup(f, k).Some? ==> Lookup(f, k).value.sessionId == state.sessionId
    ensures VisibleKept(initial, Insert(f, k, state))
  {
    forall other | Lookup(initial, other).Some?
      ensures Lookup(Insert(f, k, state), other).Some?
      ensures Lookup(Insert(f, k, state), other).value.sessionId == Lookup(initial, other).value.sessionId
    {
      InsertKeepsVisible(f, k, state, other);
    }
  }

  lemma TracedNext(s: State, a: Action)
    requires Invariant(s) && Next(s, a).Some?
    requires SavesReturned(s.published, s.returned) && VisibleKept(s.initial, s.file)
    ensures var t := Next(s, a).value; SavesReturned(t.published, t.returned) && VisibleKept(t.initial, t.file)
  {
    if a.Publish? {
      var q := s.processes[a.p];
      assert ProcessOk(s.file, s.returned, q);
      var state := if q.pc.StoreLoaded? then q.pc.created else q.pc.state;
      VisibleKeptByInsert(s.initial, s.file, q.key, state);
    }
  }

  lemma {:induction false} EveryRunIsTraced(s: State, actions: seq<Action>)
    requires Init(s) && Run(s, actions).Some?
    ensures var t := Run(s, actions).value; SavesReturned(t.published, t.returned) && VisibleKept(t.initial, t.file)
  {
    if actions != [] {
      var front := actions[..|actions| - 1];
      EveryRunIsTraced(s, front);
      EveryRunKeepsInvariant(s, front);
      TracedNext(Run(s, front).value, actions[|actions| - 1]);
    }
  }

  lemma SaveIsVisible(file: SavedSessions, published: seq<Save>, returned: seq<Returned>, k: Key, state: SavedSession)
    requires Stable(file, returned) && SavesReturned(published, returned) && state in SavesOf(published, k)
    ensures Lookup(file, k).Some? && Lookup(file, k).value.sessionId == state.sessionId
  {
    SavesOfMembers(published, k, state);
    assert Save(k, state) in published;
    assert Returned(k, state.sessionId) in returned;
  }

  /** All saves of a key, and the entry it had before, name the session the key sees now. */
  lemma SavesNameOneSession(s: State, actions: seq<Action>, k: Key)
    requires Init(s) && Run(s, actions).Some? && SavesOf(Run(s, actions).value.published, k) != []
    ensures var t := Run(s, actions).value;
            && Lookup(t.file, k).Some?
            && OneSession(Lookup(t.file, k).value.sessionId, Entry(s.initial, k), SavesOf(t.published, k))
  {
    var t := Run(s, actions).value;
    EveryRunKeepsInvariant(s, actions);
    EveryRunIsTraced(s, actions);
    InitialKept(s, actions);
    var states := SavesOf(t.published, k);
    SaveIsVisible(t.file, t.published, t.returned, k, states[0]);
    forall i | 0 <= i < |states| ensures states[i].sessionId == states[0].sessionId {
      SaveIsVisible(t.file, t.published, t.returned, k, states[i]);
    }
  }

  /**
   * No update is lost, in any run: the file is the published saves applied one after the other, all saves
   * of a key name one session, and the key's entry holds their maximum; other entries are as before.
   */
  lemma NoSaveIsLost(s: State, actions: seq<Action>, k: Key) returns (id: nat)
    requires Init(s) && Run(s, actions).Some?
    ensures var t := Run(s, actions).value; var states := SavesOf(t.published, k);
            && t.file == InsertAll(s.initial, t.published)
            && (states == [] ==> Entry(t.file, k) == Entry(s.initial, k))
            && (states != [] ==>
                  && OneSession(id, Entry(s.initial, k), states)
                  && Entry(t.file, k).Some? && Entry(t.file, k).value.sessionId == id
                  && IsHighest(Entry(t.file, k).value.lastEventId, Entry(s.initial, k), states))
  {
    var t := Run(s, actions).value;
    EveryRunKeepsInvariant(s, actions);
    InitialKept(s, actions);
    if SavesOf(t.published, k) != [] {
      SavesNameOneSession(s, actions, k);
      id := Lookup(t.file, k).value.sessionId;
    } else {
      id := if Entry(s.initial, k).Some? then Entry(s.initial, k).value.sessionId else 0;
    }
    StoredCursorIsMaximum(s.initial, t.published, k, id);
  }
}
