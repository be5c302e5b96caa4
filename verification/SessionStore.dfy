/** The cursor file shared by all client processes of one user. */
module SessionStore {
  import opened Base

  datatype SavedSession = SavedSession(sessionId: nat, lastEventId: nat)

  /** One entry per server for unnamed clients, and one per server and consumer id. */
  datatype SavedSessions = SavedSessions(
    servers: map<string, SavedSession>,
    consumers: map<string, map<string, SavedSession>>)

  /** Who saves: a server endpoint and an optional consumer id. */
  datatype Key = Key(server: string, consumer: Option<string>)

  datatype Save = Save(key: Key, state: SavedSession)

  /** The entry a key owns. */
  function Entry(f: SavedSessions, k: Key): Option<SavedSession> {
    match k.consumer
    case None => if k.server in f.servers then Some(f.servers[k.server]) else None
    case Some(c) =>
      if k.server in f.consumers && c in f.consumers[k.server] then Some(f.consumers[k.server][c]) else None
  }

  /** `lookup_saved_session`: a consumer without an entry falls back to the unnamed one. */
  function Lookup(f: SavedSessions, k: Key): Option<SavedSession> {
    if k.consumer.Some? && Entry(f, k).Some? then Entry(f, k) else Entry(f, Key(k.server, None))
  }

  /** A save for the session already stored never moves its cursor backwards; another session replaces it. */
  function Merge(existing: Option<SavedSession>, state: SavedSession): SavedSession {
    if existing.Some? && existing.value.sessionId == state.sessionId
    then SavedSession(state.sessionId, Max(existing.value.lastEventId, state.lastEventId))
    else state
  }

  /** `insert_saved_session`. */
  function Insert(f: SavedSessions, k: Key, state: SavedSession): SavedSessions {
    match k.consumer
    case Some(c) =>
      var consumers := if k.server in f.consumers then f.consumers[k.server] else map[];
      f.(consumers := f.consumers[k.server := consumers[c := Merge(Entry(f, k), state)]])
    case None =>
      f.(servers := f.servers[k.server := Merge(Entry(f, k), state)])
  }

  function InsertAll(f: SavedSessions, saves: seq<Save>): SavedSessions {
    if saves == [] then f
    else
      var last := saves[|saves| - 1];
      Insert(InsertAll(f, saves[..|saves| - 1]), last.key, last.state)
  }

  /** A save reaches its own entry and no other, so one consumer never alters another or the unnamed entry. */
  lemma InsertTouchesOneEntry(f: SavedSessions, k: Key, state: SavedSession, other: Key)
    ensures Entry(Insert(f, k, state), other) == if other == k then Some(Merge(Entry(f, k), state)) else Entry(f, other)
  {}

  /**
   * What a save leaves in its entry: always its own session, and at least its own cursor; of the same session
   * the larger of both cursors, of another session nothing.
   */
  lemma InsertStores(f: SavedSessions, k: Key, state: SavedSession)
    ensures var before, after := Entry(f, k), Entry(Insert(f, k, state), k);
            && after.Some? && after.value.sessionId == state.sessionId
            && after.value.lastEventId >= state.lastEventId
            && (before.Some? && before.value.sessionId == state.sessionId ==>
                  && after.value.lastEventId >= before.value.lastEventId
                  && after.value.lastEventId in {before.value.lastEventId, state.lastEventId})
            && (before.None? || before.value.sessionId != state.sessionId ==> after == Some(state))
  {
    InsertTouchesOneEntry(f, k, state, k);
  }

  /** What a save makes visible: to its own key at once, and from the unnamed key to consumers without an entry. */
  lemma SavedIsVisible(f: SavedSessions, k: Key, state: SavedSession, reader: Key)
    requires reader.server == k.server
    ensures reader == k ==> Lookup(Insert(f, k, state), reader) == Entry(Insert(f, k, state), k)
    ensures k.consumer.None? && reader.consumer.Some? && Entry(f, reader).None? ==>
              Lookup(Insert(f, k, state), reader) == Entry(Insert(f, k, state), k)
    ensures k.consumer.None? && reader.consumer.Some? && Entry(f, reader).Some? ==>
              Lookup(Insert(f, k, state), reader) == Entry(f, reader)
    ensures Entry(Insert(f, k, state), k).Some? && Entry(Insert(f, k, state), k).value.sessionId == state.sessionId
  {
    InsertTouchesOneEntry(f, k, state, k);
    InsertTouchesOneEntry(f, k, state, reader);
  }

  /** The saves of one key. */
  function SavesOf(saves: seq<Save>, k: Key): seq<SavedSession> {
    if saves == [] then []
    else
      SavesOf(saves[..|saves| - 1], k)
      + if saves[|saves| - 1].key == k then [saves[|saves| - 1].state] else []
  }

  /** `v` is the largest cursor among `states` and, where there is one, the initial entry. */
  predicate IsHighest(v: nat, initial: Option<SavedSession>, states: seq<SavedSession>) {
    && (forall i :: 0 <= i < |states| ==> states[i].lastEventId <= v)
    && (initial.Some? ==> initial.value.lastEventId <= v)
    && (|| (exists i :: 0 <= i < |states| && states[i].lastEventId == v)
        || (initial.Some? && initial.value.lastEventId == v))
  }

  /** All saves of a key, and what was stored before, name one session. */
  predicate OneSession(id: nat, initial: Option<SavedSession>, states: seq<SavedSession>) {
    && (initial.Some? ==> initial.value.sessionId == id)
    && forall i :: 0 <= i < |states| ==> states[i].sessionId == id
  }

  /** Saves under other keys are invisible; saves for one session accumulate to their maximum. */
  lemma {:induction false} StoredCursorIsMaximum(f: SavedSessions, saves: seq<Save>, k: Key, id: nat)
    requires OneSession(id, Entry(f, k), SavesOf(saves, k))
    ensures SavesOf(saves, k) == [] ==> Entry(InsertAll(f, saves), k) == Entry(f, k)
    ensures SavesOf(saves, k) != [] ==>
              && Entry(InsertAll(f, saves), k).Some?
              && Entry(InsertAll(f, saves), k).value.sessionId == id
              && IsHighest(Entry(InsertAll(f, saves), k).value.lastEventId, Entry(f, k), SavesOf(saves, k))
  {
    if saves != [] {
      var front, last := saves[..|saves| - 1], saves[|saves| - 1];
      var before := SavesOf(front, k);
      if last.key == k {
        assert forall i :: 0 <= i < |before| ==> SavesOf(saves, k)[i] == before[i];
        assert SavesOf(saves, k)[|before|] == last.state;
      } else {
        assert SavesOf(saves, k) == before;
      }
      StoredCursorIsMaximum(f, front, k, id);
      InsertTouchesOneEntry(InsertAll(f, front), last.key, last.state, k);
      if last.key == k {
        HighestPush(Entry(f, k), before, last.state, Entry(InsertAll(f, front), k));
      }
    }
  }

  lemma HighestPush(initial: Option<SavedSession>, before: seq<SavedSession>, state: SavedSession,
                    stored: Option<SavedSession>)
    requires if before == [] then stored == initial
             else stored.Some? && IsHighest(stored.value.lastEventId, initial, before)
    requires stored.Some? ==> stored.value.sessionId == state.sessionId
    ensures IsHighest(Merge(stored, state).lastEventId, initial, before + [state])
  {
    var v, states := Merge(stored, state).lastEventId, before + [state];
    assert states[|before|] == state;
    if v != state.lastEventId && before != [] && !(initial.Some? && initial.value.lastEventId == v) {
      var i :| 0 <= i < |before| && before[i].lastEventId == v;
      assert states[i].lastEventId == v;
    }
  }

  lemma {:induction false} SavesOfMembers(saves: seq<Save>, k: Key, state: SavedSession)
    ensures state in SavesOf(saves, k) <==> Save(k, state) in saves
  {
    if saves != [] {
      SavesOfMembers(saves[..|saves| - 1], k, state);
      assert saves == saves[..|saves| - 1] + [saves[|saves| - 1]];
    }
  }

  /** Two interleavings of the same saves leave the same entry behind, whatever their order. */
  lemma SaveOrderIsIrrelevant(f: SavedSessions, a: seq<Save>, b: seq<Save>, k: Key, id: nat)
    requires forall s :: s in a <==> s in b
    requires OneSession(id, Entry(f, k), SavesOf(a, k)) && OneSession(id, Entry(f, k), SavesOf(b, k))
    ensures Entry(InsertAll(f, a), k) == Entry(InsertAll(f, b), k)
  {
    StoredCursorIsMaximum(f, a, k, id);
    StoredCursorIsMaximum(f, b, k, id);
    SameMembers(a, b, k);
    SameMembers(b, a, k);
    if SavesOf(a, k) != [] {
      var v, w := Entry(InsertAll(f, a), k).value.lastEventId, Entry(InsertAll(f, b), k).value.lastEventId;
      HighestUnique(Entry(f, k), SavesOf(a, k), SavesOf(b, k), v, w);
      HighestUnique(Entry(f, k), SavesOf(b, k), SavesOf(a, k), w, v);
    }
  }

  lemma SameMembers(a: seq<Save>, b: seq<Save>, k: Key)
    requires forall s :: s in a ==> s in b
    ensures forall s :: s in SavesOf(a, k) ==> s in SavesOf(b, k)
    ensures SavesOf(a, k) != [] ==> SavesOf(b, k) != []
  {
    forall s | s in SavesOf(a, k) ensures s in SavesOf(b, k) {
      SavesOfMembers(a, k, s);
      SavesOfMembers(b, k, s);
    }
    if SavesOf(a, k) != [] {
      assert SavesOf(a, k)[0] in SavesOf(b, k);
    }
  }

  lemma HighestUnique(initial: Option<SavedSession>, x: seq<SavedSession>, y: seq<SavedSession>, v: nat, w: nat)
    requires IsHighest(v, initial, x) && IsHighest(w, initial, y) && forall s :: s in x ==> s in y
    ensures v <= w
  {
    if !(initial.Some? && initial.value.lastEventId == v) {
      var i :| 0 <= i < |x| && x[i].lastEventId == v;
      assert x[i] in y;
    }
  }
}
