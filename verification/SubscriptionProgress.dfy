/**
 * What a subscription gets done.  Saving commits the cursor and hands over the boundary; only output and the
 * one event being saved can be printed again after a crash; and from every reachable state the consumer can
 * catch up with the journal.
 */
module SubscriptionProgress {
  import opened Base
  import opened Subscription
  import opened SubscriptionAcks

  // ---------- saving ----------

  /** The state after a save: the cursor is committed, and nothing is left to do before reading on. */
  predicate Committed(t: State, u: State) {
    && u.persisted == u.cursor == t.cursor && u.pc == Reading
    && u.printed == t.printed && u.jumps == t.jumps && u.stream == t.stream && u.journal == t.journal
    && |u.workers| == |t.workers| && u.sender == t.sender
  }

  /** The id has joined the current worker's channel. */
  predicate Queued(t: State, u: State, id: nat)
    requires HasRoom(t)
  {
    && t.sender.value < |u.workers|
    && u.workers[t.sender.value].queue == t.workers[t.sender.value].queue + [id]
  }

  /** In every run, a save commits the cursor and queues the boundary it was waiting for. */
  lemma SaveCommits(s: State, actions: seq<Action>, t: State, u: State)
    requires Init(s) && Run(s, actions) == Some(t) && Next(t, Save) == Some(u)
    ensures Committed(t, u)
    ensures HasRoom(t) && t.pc.ackAfter.Some? ==> Queued(t, u, t.pc.ackAfter.value)
  {
    EveryRunKeepsInvariant(s, actions);
  }

  lemma BoundarySteps(t: State, boundary: Action, u: State)
    requires boundary.CaughtUp? || (boundary.Ready? && t.stream.Opening? && t.stream.compacted)
    requires Next(t, boundary) == Some(u)
    ensures boundary.CaughtUp? ==> t.stream.Streaming? && t.stream.marker.Some?
    ensures var through := if boundary.CaughtUp? then t.stream.marker.value else t.stream.through;
            && u.cursor == Max(t.cursor, through) && u.pc == Saving(Some(through))
            && u.workers == t.workers && u.sender == t.sender
  {}

  /** In every run, taking over a boundary and saving commits it and acknowledges it. */
  lemma BoundaryIsCommitted(s: State, actions: seq<Action>, t: State, boundary: Action, u: State)
    requires Init(s) && Run(s, actions) == Some(t) && Run(s, actions + [boundary, Save]) == Some(u)
    requires boundary.CaughtUp? || (boundary.Ready? && t.stream.Opening? && t.stream.compacted)
    ensures boundary.CaughtUp? ==> t.stream.Streaming? && t.stream.marker.Some?
    ensures var through := if boundary.CaughtUp? then t.stream.marker.value else t.stream.through;
            && u.persisted == u.cursor == Max(t.cursor, through) && u.pc == Reading
            && (HasRoom(t) ==> Queued(t, u, through))
  {
    var both := actions + [boundary, Save];
    assert both[..|both| - 1] == actions + [boundary];
    RunPush(s, actions, boundary, t);
    EveryRunKeepsInvariant(s, actions);
    BoundarySteps(t, boundary, Next(t, boundary).value);
    SaveCommits(s, actions + [boundary], Next(t, boundary).value, u);
  }

  // ---------- what a crash can repeat ----------

  /** Printed events that are not output are saved, but for the one whose save is due. */
  predicate SavedBehind(s: State) {
    && (forall e :: e in s.printed && !e.kind.ProcessOutput? && e.id > s.persisted ==>
          s.pc.Saving? && e.id == s.cursor)
    && (forall jump :: jump in s.jumps && jump.hi > s.persisted ==> s.pc.Saving? && jump.hi <= s.cursor)
  }

  lemma EventKeepsSaved(s: State, e: Event, saveOutput: bool)
    requires Invariant(s) && s.stream.Streaming? && s.pc == Reading && SavedBehind(s)
    ensures SavedBehind(HandleEvent(s, e, saveOutput))
  {
    if e.id > s.cursor {
      var u := HandleEvent(s, e, saveOutput);
      assert u.printed == s.printed + [e] && u.jumps == s.jumps && u.persisted == s.persisted;
    }
  }

  /** A compaction snapshot's boundary is reached by the cursor, and its save is due. */
  lemma ReadyKeepsSaved(s: State, pos: nat)
    requires Invariant(s) && SavedBehind(s) && DoReady(s, pos).Some?
    ensures SavedBehind(DoReady(s, pos).value)
  {
    var t := DoReady(s, pos).value;
    assert t.printed == s.printed && t.persisted == s.persisted;
    assert s.stream.compacted ==> t.jumps == s.jumps + {Skip(s.cursor, s.stream.through)};
  }

  /** The other actions print nothing, jump over nothing, and leave a due save due. */
  lemma QuietKeepsSaved(s: State, a: Action)
    requires SavedBehind(s) && Next(s, a).Some?
    requires a.Append? || a.Subscribe? || a.CaughtUp? || a.Disconnect? || IsWorkerAction(a)
    ensures SavedBehind(Next(s, a).value)
  {
    var t := Next(s, a).value;
    assert t.printed == s.printed && t.persisted == s.persisted && t.jumps == s.jumps;
  }

  lemma NextKeepsSaved(s: State, a: Action)
    requires Invariant(s) && SavedBehind(s) && Next(s, a).Some?
    ensures SavedBehind(Next(s, a).value)
  {
    if a.Notify? {
      EventKeepsSaved(s, NextMatching(s.filter, s.journal, s.stream.pos).value, a.saveOutput);
    } else if a.Save? {
      SaveKeepsSaved(s);
    } else if a.Ready? {
      ReadyKeepsSaved(s, a.pos);
    } else if !a.Crash? {
      QuietKeepsSaved(s, a);
    }
  }

  lemma SaveKeepsSaved(s: State)
    requires Invariant(s) && SavedBehind(s) && DoSave(s).Some?
    ensures SavedBehind(DoSave(s).value)
  {
    var t := DoSave(s).value;
    assert t.printed == s.printed && t.jumps == s.jumps && t.persisted == s.cursor;
  }

  lemma {:induction false} EveryRunSaves(s: State, actions: seq<Action>)
    requires Init(s) && Run(s, actions).Some?
    ensures SavedBehind(Run(s, actions).value)
  {
    if actions != [] {
      var front := actions[..|actions| - 1];
      EveryRunSaves(s, front);
      EveryRunKeepsInvariant(s, front);
      NextKeepsSaved(Run(s, front).value, actions[|actions| - 1]);
    }
  }

  lemma CursorIsLast(t: State, e: Event)
    requires InOrder(t.filter, t.journal, t.start, t.cursor, t.printed)
    requires e in t.printed && e.id == t.cursor
    ensures e == t.printed[|t.printed| - 1]
  {
    assert t.printed[|t.printed| - 1] in t.printed;
  }

  lemma UnsavedIsLast(t: State, e: Event)
    requires Invariant(t) && SavedBehind(t) && e in t.printed && e.id > t.persisted && !e.kind.ProcessOutput?
    ensures t.pc.Saving? && e == t.printed[|t.printed| - 1] && e.id == t.cursor
  {
    CursorIsLast(t, e);
  }

  /**
   * The next process prints only what lies above the saved cursor.  Of what was printed, that is only output
   * and, if the crash comes before its save, the very last event; while the client reads, all else is saved.
   */
  lemma CrashRepeatsOnlyUnsaved(s: State, actions: seq<Action>, e: Event)
    requires Init(s) && Run(s, actions).Some?
    requires e in Run(s, actions).value.printed && !e.kind.ProcessOutput?
    requires e.id > Run(s, actions).value.persisted
    ensures var t := Run(s, actions).value; t.pc.Saving? && e == t.printed[|t.printed| - 1] && e.id == t.cursor
  {
    EveryRunSaves(s, actions);
    EveryRunKeepsInvariant(s, actions);
    UnsavedIsLast(Run(s, actions).value, e);
  }

  // ---------- catching up ----------

  predicate IsFollowing(a: Action) {
    a.Subscribe? || a.Ready? || a.Notify? || a.CaughtUp? || a.Save?
  }

  /** The same journal and the same caller, with more of it printed. */
  predicate Extends(t: State, u: State) {
    && u.journal == t.journal && u.filter == t.filter && u.start == t.start && u.requested == t.requested
    && t.printed <= u.printed && (t.stream.Opening? || u.jumps == t.jumps)
  }

  predicate FollowingFrom(actions: seq<Action>, more: seq<Action>) {
    actions <= more && forall k :: |actions| <= k < |more| ==> IsFollowing(more[k])
  }

  /** `actions` continued by the subscription alone. */
  predicate Continues(s: State, actions: seq<Action>, t: State, more: seq<Action>, u: State) {
    && Run(s, actions) == Some(t) && Run(s, more) == Some(u) && FollowingFrom(actions, more)
    && Extends(t, u) && Invariant(u)
  }

  /** Everything the caller asked for has been printed, or replaced by a compaction snapshot. */
  predicate UpToDate(u: State) {
    forall e :: e in u.journal && Matches(u.filter, e) && u.Floor() < e.id ==> e in u.printed || Covers(u.jumps, e.id)
  }

  lemma FollowingExtends(u: State, a: Action)
    requires IsFollowing(a) && Next(u, a).Some?
    ensures var v := Next(u, a).value;
            && v.journal == u.journal && v.filter == u.filter && v.start == u.start && v.requested == u.requested
            && u.printed <= v.printed
            && (v.jumps == u.jumps || (a.Ready? && u.stream.Opening? && u.stream.compacted))
  {
    if a.Notify? {
      var e := NextMatching(u.filter, u.journal, u.stream.pos).value;
      assert Next(u, a).value == HandleEvent(u, e, a.saveOutput);
    }
  }

  /** One more action of the subscription. */
  lemma ContinueWith(s: State, actions: seq<Action>, t: State, more: seq<Action>, u: State, a: Action)
    requires Continues(s, actions, t, more, u) && IsFollowing(a) && Next(u, a).Some?
    requires a.Ready? && u.stream.Opening? && u.stream.compacted ==> t.stream.Opening?
    ensures Continues(s, actions, t, more + [a], Next(u, a).value)
  {
    RunPush(s, more, a, u);
    KeepNext(u, a);
    FollowingExtends(u, a);
    ExtendsFurther(t, u, Next(u, a).value);
  }

  lemma ExtendsFurther(t: State, u: State, v: State)
    requires Extends(t, u)
    requires v.journal == u.journal && v.filter == u.filter && v.start == u.start && v.requested == u.requested
    requires u.printed <= v.printed && (t.stream.Opening? || v.jumps == u.jumps)
    ensures Extends(t, v)
  {}

  lemma ContinuesSelf(s: State, actions: seq<Action>, t: State)
    requires Init(s) && Run(s, actions) == Some(t)
    ensures Continues(s, actions, t, actions, t)
  {
    EveryRunKeepsInvariant(s, actions);
  }

  /** A due save, if there is one. */
  lemma Settle(s: State, actions: seq<Action>, t: State, more: seq<Action>, u: State)
    returns (more': seq<Action>, u': State)
    requires Continues(s, actions, t, more, u)
    ensures Continues(s, actions, t, more', u') && u'.pc == Reading
    ensures u'.stream == u.stream && u'.After() == u.After()
  {
    if u.pc == Reading {
      more', u' := more, u;
    } else {
      ContinueWith(s, actions, t, more, u, Save);
      more', u' := more + [Save], Next(u, Save).value;
    }
  }

  /** How much the open stream has still to consider. */
  function Ahead(u: State): nat {
    if u.stream.Streaming? then |u.journal| - NextIndex(u.filter, u.journal, u.stream.pos, 0) else 0
  }

  function MarkersAhead(u: State): nat {
    if u.stream.Streaming? && u.stream.marker.Some? then 1 else 0
  }

  lemma NextIndexGrows(f: Filter, journal: seq<Event>, pos: nat, r: nat)
    requires Ordered(journal) && r == NextIndex(f, journal, pos, 0) < |journal|
    ensures NextIndex(f, journal, journal[r].id, 0) > r
  {
    assert forall k :: 0 <= k <= r ==> journal[k].id <= journal[r].id;
  }

  lemma EventMovesStream(u: State, e: Event, saveOutput: bool)
    requires u.stream.Streaming?
    ensures var v := HandleEvent(u, e, saveOutput);
            v.stream == u.stream.(pos := e.id) && v.journal == u.journal && v.filter == u.filter
  {}

  lemma NotifyAdvances(u: State, saveOutput: bool)
    requires Ordered(u.journal) && DoNotify(u, saveOutput).Some?
    ensures var v := DoNotify(u, saveOutput).value;
            v.stream.Streaming? && v.stream.marker == u.stream.marker && Ahead(v) < Ahead(u)
  {
    var r := NextIndex(u.filter, u.journal, u.stream.pos, 0);
    EventMovesStream(u, u.journal[r], saveOutput);
    NextIndexGrows(u.filter, u.journal, u.stream.pos, r);
  }

  lemma DrainedIsUpToDate(u: State)
    requires Invariant(u) && u.stream.Streaming?
    requires NextMatching(u.filter, u.journal, u.stream.pos).None?
    ensures UpToDate(u)
  {
    NextMatchingIs(u);
  }

  /** The backlog is through: its boundary is taken over. */
  lemma PassMarker(s: State, actions: seq<Action>, t: State, more: seq<Action>, u: State)
    returns (more': seq<Action>, u': State)
    requires Continues(s, actions, t, more, u) && u.pc == Reading && DoCaughtUp(u).Some?
    ensures Continues(s, actions, t, more', u') && u'.pc == Reading
    ensures u'.stream.Streaming? && u'.stream.marker.None?
  {
    ContinueWith(s, actions, t, more, u, CaughtUp);
    more', u' := Settle(s, actions, t, more + [CaughtUp], Next(u, CaughtUp).value);
  }

  /** The next event is taken over. */
  lemma PassEvent(s: State, actions: seq<Action>, t: State, more: seq<Action>, u: State)
    returns (more': seq<Action>, u': State)
    requires Continues(s, actions, t, more, u) && u.pc == Reading && DoNotify(u, false).Some?
    ensures Continues(s, actions, t, more', u') && u'.pc == Reading
    ensures u'.stream.Streaming? && u'.stream.marker == u.stream.marker && Ahead(u') < Ahead(u)
  {
    NotifyAdvances(u, false);
    ContinueWith(s, actions, t, more, u, Notify(false));
    more', u' := Settle(s, actions, t, more + [Notify(false)], Next(u, Notify(false)).value);
    assert u'.journal == u.journal && u'.filter == u.filter;
  }

  /** An open stream can be followed to the journal's end. */
  lemma {:induction false} Drain(s: State, actions: seq<Action>, t: State, more: seq<Action>, u: State)
    returns (more': seq<Action>, u': State)
    requires Continues(s, actions, t, more, u) && u.stream.Streaming? && u.pc == Reading
    ensures Continues(s, actions, t, more', u') && u'.pc == Reading && UpToDate(u')
    decreases MarkersAhead(u), Ahead(u)
  {
    var next := NextMatching(u.filter, u.journal, u.stream.pos);
    if next.Some? && (u.stream.marker.Some? ==> next.value.id <= u.stream.marker.value) {
      more', u' := PassEvent(s, actions, t, more, u);
      more', u' := Drain(s, actions, t, more', u');
    } else if u.stream.marker.Some? {
      more', u' := PassMarker(s, actions, t, more, u);
      more', u' := Drain(s, actions, t, more', u');
    } else {
      DrainedIsUpToDate(u);
      more', u' := more, u;
    }
  }

  /** The stream is opened, if it is not open already. */
  lemma Open(s: State, actions: seq<Action>, t: State, more: seq<Action>, u: State)
    returns (more': seq<Action>, u': State)
    requires Continues(s, actions, t, more, u) && u.pc == Reading
    requires u.stream.Closed? ==> !t.stream.Opening? && u.After() <= u.Head()
    requires u.stream.Opening? ==> t.stream.Opening? || !u.stream.compacted
    ensures Continues(s, actions, t, more', u') && u'.stream.Streaming?
    decreases if u.stream.Closed? then 1 else 0
  {
    if u.stream.Closed? {
      var a := Subscribe(false, true, true);
      ContinueWith(s, actions, t, more, u, a);
      more', u' := Open(s, actions, t, more + [a], Next(u, a).value);
    } else if u.stream.Opening? {
      var a := Ready(u.stream.after);
      ContinueWith(s, actions, t, more, u, a);
      more', u' := more + [a], Next(u, a).value;
    } else {
      more', u' := more, u;
    }
  }

  /**
   * From every reachable state the subscription can catch up by itself, unless it has yet to subscribe
   * with a position the journal does not reach, which the server refuses.
   */
  lemma CanCatchUp(s: State, actions: seq<Action>, t: State) returns (more: seq<Action>, u: State)
    requires Init(s) && Run(s, actions) == Some(t)
    requires t.stream.Closed? ==> t.After() <= t.Head()
    ensures Continues(s, actions, t, more, u) && u.pc == Reading && UpToDate(u)
  {
    ContinuesSelf(s, actions, t);
    more, u := Settle(s, actions, t, actions, t);
    more, u := Open(s, actions, t, more, u);
    more, u := Settle(s, actions, t, more, u);
    more, u := Drain(s, actions, t, more, u);
  }
}
