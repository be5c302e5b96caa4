/**
 * A workspace query from end to end: which validators the adapter sends, how the server shortens its
 * reply when one of them matches, and how the adapter expands the reply from its cache.
 */
module WorkspaceQuery {
  import opened Base
  import opened WorkspaceCache

  /** What the server computes for a query before it decides what to transmit. */
  datatype Full = Full(contents: Contents, treeVersion: Option<Version>, digest: string)

  datatype Reply = Reply(
    contents: Contents, treeVersion: Option<Version>, treeUnchanged: bool, digest: string, stateUnchanged: bool)

  const OMITTED := Contents([], None, None, [], [], [])

  /** The server's conditional reply. */
  function ServerReply(key: QueryKey, full: Full, knownVersion: Option<Version>, knownDigest: Option<string>): Reply {
    var treeUnchanged := key.includeTree && knownVersion.Some? && full.treeVersion == knownVersion;
    if knownDigest == Some(full.digest) then
      Reply(OMITTED, full.treeVersion, true, full.digest, true)
    else
      var tree := if key.includeTree && !treeUnchanged then full.contents.tree else [];
      Reply(full.contents.(tree := tree), full.treeVersion, treeUnchanged, full.digest, false)
  }

  function CachedFor(entries: map<QueryKey, Cached>, key: QueryKey): Option<Cached> {
    if key in entries then Some(entries[key]) else None
  }

  /** A digest is sent only when this adapter can expand the acknowledgement, whatever the caller supplied. */
  function DigestToSend(cached: Option<Cached>, supplied: Option<string>): Option<string> {
    if cached.None? then None
    else if supplied.Some? && supplied.value == cached.value.digest then supplied
    else Some(cached.value.digest)
  }

  /** The caller's tree version, or the last one seen for the workspace, filtered by the cached entry's own. */
  function VersionToSend(cached: Option<Cached>, supplied: Option<Version>, seen: Option<Version>): Option<Version> {
    var version := if supplied.Some? then supplied else seen;
    if version.Some? && cached.Some? && cached.value.treeVersion == version then version else None
  }

  /** The adapter's expansion; `None` is the digest acknowledged without a matching local entry. */
  function Expand(cached: Option<Cached>, reply: Reply): Option<Contents> {
    if reply.stateUnchanged then
      if cached.Some? && cached.value.digest == reply.digest then Some(cached.value.contents) else None
    else if reply.treeUnchanged && reply.contents.tree == [] then
      Some(reply.contents.(tree := if cached.Some? then cached.value.contents.tree else []))
    else
      Some(reply.contents)
  }

  predicate SameTreeVersion(a: Full, b: Full) {
    a.treeVersion.Some? && a.treeVersion == b.treeVersion
  }

  /**
   * What the validators promise about all the results a server computes: for one query, a digest names
   * one result and a tree version names one tree; a query without the tree has an empty one.
   */
  ghost predicate Consistent(history: set<(QueryKey, Full)>) {
    && (forall h, g :: h in history && g in history && h.0 == g.0 && h.1.digest == g.1.digest ==>
          h.1.contents == g.1.contents)
    && (forall h, g :: h in history && g in history && h.0 == g.0 && SameTreeVersion(h.1, g.1) ==>
          h.1.contents.tree == g.1.contents.tree)
    && (forall h :: h in history && !h.0.includeTree ==> h.1.contents.tree == [])
  }

  /** A cached entry is a result the server once computed for that query. */
  ghost predicate Remembers(history: set<(QueryKey, Full)>, key: QueryKey, c: Cached) {
    (key, Full(c.contents, c.treeVersion, c.digest)) in history
  }

  ghost predicate AllRemembered(history: set<(QueryKey, Full)>, entries: map<QueryKey, Cached>) {
    forall k :: k in entries ==> Remembers(history, k, entries[k])
  }

  /** The short forms are lossless: whatever the caller supplied, the expansion is the full result. */
  lemma ExpansionIsComplete(history: set<(QueryKey, Full)>, key: QueryKey, full: Full, cached: Option<Cached>,
                            digest: Option<string>, version: Option<Version>, seen: Option<Version>)
    requires Consistent(history) && (key, full) in history
    requires cached.Some? ==> Remembers(history, key, cached.value)
    ensures Expand(cached, ServerReply(key, full, VersionToSend(cached, version, seen), DigestToSend(cached, digest)))
            == Some(full.contents)
  {
    if cached.Some? {
      var remembered := (key, Full(cached.value.contents, cached.value.treeVersion, cached.value.digest));
      assert remembered in history;
      assert cached.value.digest == full.digest ==> remembered.1.contents == (key, full).1.contents;
    }
    assert !key.includeTree ==> (key, full).1.contents.tree == [];
  }

  /**
   * The short forms are used: a result is acknowledged by digest alone if and only if the adapter holds one with
   * that digest, and the tree is left out whenever the adapter holds the one of the current version.
   */
  lemma RepliesAreShort(key: QueryKey, full: Full, cached: Option<Cached>, digest: Option<string>,
                        version: Option<Version>, seen: Option<Version>)
    ensures var reply := ServerReply(key, full, VersionToSend(cached, version, seen), DigestToSend(cached, digest));
            && (reply.stateUnchanged <==> cached.Some? && cached.value.digest == full.digest)
            && (reply.stateUnchanged ==> reply.contents == OMITTED)
            && (&& cached.Some? && full.treeVersion.Some? && cached.value.treeVersion == full.treeVersion
                && (version == full.treeVersion || (version.None? && seen == full.treeVersion)) ==>
                  reply.contents.tree == [] && (key.includeTree ==> reply.treeUnchanged))
            && reply.digest == full.digest && reply.treeVersion == full.treeVersion
  {}

  /** Without the filters the promise fails: a validator the adapter cannot expand loses the result. */
  lemma UnfilteredValidatorsLoseResults(key: QueryKey, full: Full)
    requires key.includeTree && full.treeVersion.Some? && full.contents.tree != []
    ensures Expand(None, ServerReply(key, full, None, Some(full.digest))) == None
    ensures exists lossy :: lossy != full.contents &&
                            Expand(None, ServerReply(key, full, full.treeVersion, None)) == Some(lossy)
  {
    assert Expand(None, ServerReply(key, full, full.treeVersion, None)) == Some(full.contents.(tree := []));
  }

  datatype Request =
    | Invalidate
    | Query(key: QueryKey, digest: Option<string>, version: Option<Version>, served: Option<Full>)

  /** What the caller must be shown: the complete result, or nothing when the server gave none. */
  function Expected(request: Request): Option<Contents> {
    if request.Query? && request.served.Some? then Some(request.served.value.contents) else None
  }

  ghost predicate Served(history: set<(QueryKey, Full)>, request: Request) {
    request.Query? && request.served.Some? ==> (request.key, request.served.value) in history
  }

  /** The result is small enough to be kept. */
  predicate Cacheable(full: Full) {
    CacheBytes(Cached(full.digest, full.treeVersion, full.contents, 0)) <= MAX_BYTES
  }

  predicate Holds(entries: map<QueryKey, Cached>, key: QueryKey, full: Full) {
    key in entries && entries[key].digest == full.digest
  }

  /** Keep a complete result; whatever this evicts, the rest are still results the server computed. */
  method Remember(cache: AgentWorkspaceCache, key: QueryKey, full: Full, ghost history: set<(QueryKey, Full)>)
    requires cache.Valid() && AllRemembered(history, cache.entries) && (key, full) in history
    modifies cache
    ensures cache.Valid() && AllRemembered(history, cache.entries)
    ensures Cacheable(full) ==> Holds(cache.entries, key, full)
  {
    var state := Cached(full.digest, full.treeVersion, full.contents, 0);
    cache.Insert(key, state);
    assert key in cache.entries ==> Remembers(history, key, cache.entries[key]);
  }

  /** `agent_workspace_with_retry` for one query. */
  method QueryWorkspace(cache: AgentWorkspaceCache, versions: map<string, Version>, request: Request,
                        ghost history: set<(QueryKey, Full)>)
    returns (emitted: Option<Contents>, versions': map<string, Version>, reply: Option<Reply>)
    requires cache.Valid() && request.Query?
    requires Consistent(history) && AllRemembered(history, cache.entries) && Served(history, request)
    modifies cache
    ensures cache.Valid() && AllRemembered(history, cache.entries)
    ensures emitted == Expected(request)
    ensures request.served.None? ==> cache.State() == old(cache.State()) && versions' == versions
    ensures reply.Some? <==> request.served.Some?
    ensures reply.Some? ==>
              && (reply.value.stateUnchanged <==> Holds(old(cache.entries), request.key, request.served.value))
              && (reply.value.stateUnchanged ==> reply.value.contents == OMITTED)
    ensures reply.Some? && (Cacheable(request.served.value) || reply.value.stateUnchanged) ==>
              Holds(cache.entries, request.key, request.served.value)
  {
    var key := request.key;
    var cached := CachedFor(cache.entries, key);
    var seen := if key.workspace in versions then Some(versions[key.workspace]) else None;
    versions' := versions;
    if request.served.None? {
      return None, versions', None;
    }
    var full := request.served.value;
    var answer := ServerReply(key, full, VersionToSend(cached, request.version, seen),
                              DigestToSend(cached, request.digest));
    ExpansionIsComplete(history, key, full, cached, request.digest, request.version, seen);
    RepliesAreShort(key, full, cached, request.digest, request.version, seen);
    emitted, reply := Expand(cached, answer), Some(answer);
    if !answer.stateUnchanged {
      Remember(cache, key, Full(emitted.value, answer.treeVersion, answer.digest), history);
    }
    if answer.treeVersion.Some? {
      versions' := versions[key.workspace := answer.treeVersion.value];
    }
  }

  /** Asked again right away, a result that has not changed is shown in full and not sent again. */
  method AskAgain(cache: AgentWorkspaceCache, versions: map<string, Version>, request: Request,
                  ghost history: set<(QueryKey, Full)>)
    returns (shown: Option<Contents>, again: Reply)
    requires cache.Valid() && request.Query? && request.served.Some? && Cacheable(request.served.value)
    requires Consistent(history) && AllRemembered(history, cache.entries) && Served(history, request)
    modifies cache
    ensures cache.Valid() && shown == Some(request.served.value.contents)
    ensures again.stateUnchanged && again.contents == OMITTED
  {
    var first, versions', reply := QueryWorkspace(cache, versions, request, history);
    shown, versions', reply := QueryWorkspace(cache, versions', request, history);
    again := reply.value;
  }

  /**
   * A whole agent session: whatever was evicted, invalidated or changed on the server in between, every
   * query shows the complete result the server had, and the acknowledgement error is never reached.
   */
  method Session(requests: seq<Request>, ghost history: set<(QueryKey, Full)>) returns (emitted: seq<Option<Contents>>)
    requires Consistent(history) && forall i :: 0 <= i < |requests| ==> Served(history, requests[i])
    ensures |emitted| == |requests|
    ensures forall i :: 0 <= i < |requests| ==> emitted[i] == Expected(requests[i])
  {
    var cache := new AgentWorkspaceCache();
    var versions: map<string, Version> := map[];
    emitted := [];
    for i := 0 to |requests|
      invariant |emitted| == i
      invariant fresh(cache) && cache.Valid() && AllRemembered(history, cache.entries)
      invariant forall j :: 0 <= j < i ==> emitted[j] == Expected(requests[j])
    {
      match requests[i]
      case Invalidate =>
        cache.Clear();
        versions := map[];
        emitted := emitted + [None];
      case Query(_, _, _, _) =>
        var shown, reply;
        shown, versions, reply := QueryWorkspace(cache, versions, requests[i], history);
        emitted := emitted + [shown];
    }
  }
}
