/**
 * The agent adapter's cache of workspace results, bounded in entries and bytes, and the expansion of
 * the server's compact replies from it.
 */
module WorkspaceCache {
  import opened Base

  const MAX_ENTRIES: nat := 16
  const MAX_BYTES: nat := 32 * 1024 * 1024

  datatype QueryKey = QueryKey(
    workspace: string, includeTree: bool, includeGitStatus: bool, includeDiff: bool,
    recentCommits: nat, searches: seq<string>, readPaths: seq<string>)

  datatype TreeEntry = TreeEntry(path: string, size: nat)
  datatype SearchHit = SearchHit(query: string, path: string, line: nat, text: string)
  datatype WorkspaceFile = WorkspaceFile(path: string, sha256: string, data: seq<byte>)
  datatype Version = Version(epoch: nat, generation: nat)

  /** The complete semantic result of one query. */
  datatype Contents = Contents(
    tree: seq<TreeEntry>, gitStatus: Option<string>, diff: Option<string>,
    recentCommits: seq<string>, searchHits: seq<SearchHit>, files: seq<WorkspaceFile>)

  datatype Cached = Cached(digest: string, treeVersion: Option<Version>, contents: Contents, bytes: nat)

  // ---------- sizes ----------

  function TreeBytes(tree: seq<TreeEntry>): nat {
    if tree == [] then 0 else |tree[0].path| + 8 + TreeBytes(tree[1..])
  }

  function TextBytes(texts: seq<string>): nat {
    if texts == [] then 0 else |texts[0]| + TextBytes(texts[1..])
  }

  function HitBytes(hits: seq<SearchHit>): nat {
    if hits == [] then 0 else |hits[0].query| + |hits[0].path| + |hits[0].text| + 8 + HitBytes(hits[1..])
  }

  function FileBytes(files: seq<WorkspaceFile>): nat {
    if files == [] then 0 else |files[0].path| + |files[0].sha256| + |files[0].data| + FileBytes(files[1..])
  }

  function OptionLength(s: Option<string>): nat { if s.Some? then |s.value| else 0 }

  /** `workspace_cache_bytes`. */
  function CacheBytes(c: Cached): nat {
    |c.digest| + TreeBytes(c.contents.tree)
    + OptionLength(c.contents.gitStatus) + OptionLength(c.contents.diff)
    + TextBytes(c.contents.recentCommits) + HitBytes(c.contents.searchHits) + FileBytes(c.contents.files)
  }

  /** What the entries really weigh. */
  ghost function TotalBytes(m: map<QueryKey, Cached>): nat {
    if m == map[] then 0
    else
      var k :| k in m;
      m[k].bytes + TotalBytes(m - {k})
  }

  /** The total does not depend on the order in which entries are taken. */
  lemma {:induction false} TotalWithout(m: map<QueryKey, Cached>, k: QueryKey)
    requires k in m
    ensures TotalBytes(m) == m[k].bytes + TotalBytes(m - {k})
    decreases |m|
  {
    var j :| j in m && TotalBytes(m) == m[j].bytes + TotalBytes(m - {j});
    if j != k {
      TotalWithout(m - {j}, k);
      TotalWithout(m - {k}, j);
      assert m - {j} - {k} == m - {k} - {j};
    }
  }

  function BytesAt(m: map<QueryKey, Cached>, k: QueryKey): nat {
    if k in m then m[k].bytes else 0
  }

  lemma TotalMinus(m: map<QueryKey, Cached>, k: QueryKey)
    ensures TotalBytes(m - {k}) == TotalBytes(m) - BytesAt(m, k)
  {
    if k in m {
      TotalWithout(m, k);
    } else {
      assert m - {k} == m;
    }
  }

  lemma TotalWith(m: map<QueryKey, Cached>, k: QueryKey, c: Cached)
    requires k !in m
    ensures TotalBytes(m[k := c]) == TotalBytes(m) + c.bytes
  {
    TotalWithout(m[k := c], k);
    assert m[k := c] - {k} == m;
  }

  // ---------- the cache ----------

  /** At most 16 entries weighing at most 32 MiB, and never more than the counter says. */
  ghost predicate Bounded(entries: map<QueryKey, Cached>, bytes: nat) {
    |entries| <= MAX_ENTRIES && TotalBytes(entries) <= MAX_BYTES && TotalBytes(entries) <= bytes
  }

  /** How far the counter is above what the entries weigh. */
  ghost function Drift(entries: map<QueryKey, Cached>, bytes: nat): int {
    bytes - TotalBytes(entries)
  }

  lemma RemoveKeepsBounds(entries: map<QueryKey, Cached>, bytes: nat, k: QueryKey)
    requires Bounded(entries, bytes)
    ensures Bounded(entries - {k}, SatSub(bytes, BytesAt(entries, k)))
    ensures Drift(entries - {k}, SatSub(bytes, BytesAt(entries, k))) == Drift(entries, bytes)
    ensures k in entries ==> |entries - {k}| == |entries| - 1
    ensures BytesAt(entries, k) <= bytes
  {
    TotalMinus(entries, k);
    assert (entries - {k}).Keys == entries.Keys - {k};
    assert |(entries - {k}).Keys| <= |entries.Keys|;
  }

  lemma InsertKeepsBounds(entries: map<QueryKey, Cached>, bytes: nat, k: QueryKey, c: Cached)
    requires Bounded(entries, bytes) && k !in entries && c.bytes <= MAX_BYTES
    requires entries == map[] || (|entries| < MAX_ENTRIES && bytes + c.bytes <= MAX_BYTES)
    ensures Bounded(entries[k := c], SatAdd(bytes, c.bytes))
    ensures bytes + c.bytes <= U64_MAX ==> Drift(entries[k := c], SatAdd(bytes, c.bytes)) == Drift(entries, bytes)
  {
    TotalWith(entries, k, c);
  }

  ghost predicate SubMap(a: map<QueryKey, Cached>, b: map<QueryKey, Cached>) {
    forall k :: k in a ==> k in b && a[k] == b[k]
  }

  /** `a` and `b` agree on what `a` holds under other keys. */
  ghost predicate OthersKept(a: map<QueryKey, Cached>, b: map<QueryKey, Cached>, key: QueryKey) {
    forall k :: k in a && k != key ==> k in b && a[k] == b[k]
  }

  /** By the counter, there is room for a new entry under `key` beside the others. */
  predicate Fits(m: map<QueryKey, Cached>, bytes: nat, key: QueryKey, weight: nat) {
    |m| - (if key in m then 1 else 0) < MAX_ENTRIES && bytes - BytesAt(m, key) + weight <= MAX_BYTES
  }

  ghost predicate OnlyKey(m: map<QueryKey, Cached>, key: QueryKey) {
    forall k :: k in m ==> k == key
  }

  class AgentWorkspaceCache {
    var entries: map<QueryKey, Cached>
    var bytes: nat

    ghost predicate Valid()
      reads this
    {
      Bounded(entries, bytes) && bytes <= U64_MAX
    }

    constructor ()
      ensures Valid() && entries == map[] && bytes == 0
    {
      entries, bytes := map[], 0;
    }

    /** `clear`: also the only operation that brings a drifted counter back. */
    method Clear()
      modifies this
      ensures Valid() && entries == map[] && bytes == 0
    {
      entries, bytes := map[], 0;
    }

    /** Take an entry out, if it is there, and give its bytes back. */
    method Remove(key: QueryKey)
      requires Valid()
      modifies this
      ensures Valid() && SubMap(entries, old(entries)) && key !in entries
      ensures OthersKept(old(entries), entries, key)
      ensures bytes == old(bytes - BytesAt(entries, key))
      ensures |entries| == |old(entries)| - (if key in old(entries) then 1 else 0)
      ensures Drift(entries, bytes) == old(Drift(entries, bytes))
    {
      RemoveKeepsBounds(entries, bytes, key);
      if key in entries {
        bytes := SatSub(bytes, entries[key].bytes);
        entries := entries - {key};
      }
    }

    /** The eviction loop: entries go, in no particular order, until the new one fits or none is left. */
    method Evict(weight: nat)
      requires Valid()
      modifies this
      ensures Valid() && SubMap(entries, old(entries))
      ensures bytes <= old(bytes)
      ensures entries == map[] || (|entries| < MAX_ENTRIES && bytes + weight <= MAX_BYTES)
      ensures Drift(entries, bytes) == old(Drift(entries, bytes))
      ensures |old(entries)| < MAX_ENTRIES && old(bytes) + weight <= MAX_BYTES ==> entries == old(entries)
    {
      while |entries| >= MAX_ENTRIES || SatAdd(bytes, weight) > MAX_BYTES
        invariant Valid() && SubMap(entries, old(entries))
        invariant bytes <= old(bytes)
        invariant Drift(entries, bytes) == old(Drift(entries, bytes))
        invariant |old(entries)| < MAX_ENTRIES && old(bytes) + weight <= MAX_BYTES ==>
                    entries == old(entries) && bytes == old(bytes)
        decreases |entries|
      {
        if entries == map[] {
          break;
        }
        var oldest :| oldest in entries;
        Remove(oldest);
      }
    }

    /** The fitting part of `insert`: replace, evict, add. */
    method Place(key: QueryKey, state: Cached)
      requires Valid() && state.bytes <= MAX_BYTES
      modifies this
      ensures Valid()
      ensures key in entries && entries[key] == state
      ensures OthersKept(entries, old(entries), key)
      ensures old(bytes) + state.bytes <= U64_MAX ==> Drift(entries, bytes) == old(Drift(entries, bytes))
      ensures old(Drift(entries, bytes)) + state.bytes > MAX_BYTES ==> OnlyKey(entries, key)
      ensures old(Fits(entries, bytes, key, state.bytes)) ==> OthersKept(old(entries), entries, key)
    {
      Remove(key);
      Evict(state.bytes);
      InsertKeepsBounds(entries, bytes, key, state);
      bytes := SatAdd(bytes, state.bytes);
      entries := entries[key := state];
    }

    /** `insert`. */
    method Insert(key: QueryKey, state: Cached)
      requires Valid()
      modifies this
      ensures Valid() && Inserts(old(State()), key, state, State())
    {
      var weight := CacheBytes(state);
      if weight > MAX_BYTES {
        RemoveKeepsBounds(entries, bytes, key);
        TotalMinus(entries, key);
        entries := entries - {key};
        return;
      }
      Place(key, state.(bytes := weight));
    }

    function State(): CacheState
      reads this
    {
      CacheState(entries, bytes)
    }
  }

  // ---------- runs ----------

  datatype CacheState = CacheState(entries: map<QueryKey, Cached>, bytes: nat) {
    /** How far the counter is above what the entries weigh. */
    ghost function Excess(): int { Drift(entries, bytes) }
  }

  /**
   * What an insertion may do to the cache.  A result that is too large drops a previous entry without giving
   * its bytes back, so the counter drifts upwards by them, and nowhere else; a result that fits is stored,
   * other entries stay when the counter has room for it, and none stays when the drift leaves no room.
   */
  ghost predicate Inserts(a: CacheState, key: QueryKey, state: Cached, b: CacheState) {
    var weight := CacheBytes(state);
    && OthersKept(b.entries, a.entries, key)
    && (weight > MAX_BYTES ==> b == CacheState(a.entries - {key}, a.bytes)
                               && b.Excess() == a.Excess() + BytesAt(a.entries, key))
    && (weight <= MAX_BYTES ==>
          && key in b.entries && b.entries[key] == state.(bytes := weight)
          && (a.bytes + weight <= U64_MAX ==> b.Excess() == a.Excess())
          && (a.Excess() + weight > MAX_BYTES ==> OnlyKey(b.entries, key))
          && (Fits(a.entries, a.bytes, key, weight) ==> OthersKept(a.entries, b.entries, key)))
  }

  datatype CacheOp = Store(key: QueryKey, state: Cached) | Reset

  ghost predicate Steps(a: CacheState, op: CacheOp, b: CacheState) {
    match op
    case Store(key, state) => Inserts(a, key, state, b)
    case Reset => b == CacheState(map[], 0)
  }

  /** The states a new cache goes through. */
  ghost predicate IsRun(states: seq<CacheState>, ops: seq<CacheOp>) {
    && |states| == |ops| + 1 && states[0] == CacheState(map[], 0)
    && forall i :: 0 <= i < |ops| ==> Steps(states[i], ops[i], states[i + 1])
  }

  ghost predicate AllBounded(states: seq<CacheState>) {
    forall i :: 0 <= i < |states| ==> Bounded(states[i].entries, states[i].bytes)
  }

  lemma RunPush(states: seq<CacheState>, ops: seq<CacheOp>, i: nat, next: CacheState)
    requires i < |ops| && IsRun(states, ops[..i]) && Steps(states[i], ops[i], next)
    ensures IsRun(states + [next], ops[..i + 1])
  {
    var states', ops' := states + [next], ops[..i + 1];
    forall j | 0 <= j < |ops'| ensures Steps(states'[j], ops'[j], states'[j + 1]) {
      if j < i {
        assert Steps(states[j], ops[..i][j], states[j + 1]);
      }
    }
  }

  /** One operation of a cache. */
  method Perform(cache: AgentWorkspaceCache, op: CacheOp)
    requires cache.Valid()
    modifies cache
    ensures cache.Valid() && Steps(old(cache.State()), op, cache.State())
  {
    match op
    case Store(key, state) => cache.Insert(key, state);
    case Reset => cache.Clear();
  }

  /** Every sequence of insertions and clears has a run, and its states are bounded. */
  method Play(ops: seq<CacheOp>) returns (states: seq<CacheState>)
    ensures IsRun(states, ops) && AllBounded(states)
  {
    var cache := new AgentWorkspaceCache();
    states := [cache.State()];
    for i := 0 to |ops|
      invariant fresh(cache) && cache.Valid() && IsRun(states, ops[..i]) && states[i] == cache.State()
      invariant AllBounded(states)
    {
      Perform(cache, ops[i]);
      RunPush(states, ops, i, cache.State());
      states := states + [cache.State()];
    }
    assert ops[..|ops|] == ops;
  }

  /** The counter does not reach the largest 64-bit number. */
  predicate Unsaturated(states: seq<CacheState>, ops: seq<CacheOp>)
    requires |states| == |ops| + 1
  {
    forall i :: 0 <= i < |ops| && ops[i].Store? ==> states[i].bytes + CacheBytes(ops[i].state) <= U64_MAX
  }

  /** The bytes of the entries that oversized results replaced since the last clear. */
  function LostBytes(states: seq<CacheState>, ops: seq<CacheOp>, k: nat): nat
    requires |states| == |ops| + 1 && k <= |ops|
  {
    if k == 0 || ops[k - 1].Reset? then 0
    else
      LostBytes(states, ops, k - 1)
      + if CacheBytes(ops[k - 1].state) > MAX_BYTES then BytesAt(states[k - 1].entries, ops[k - 1].key) else 0
  }

  /** In every run the counter is above the true sum by exactly those bytes. */
  lemma {:induction false} DriftIsLostBytes(states: seq<CacheState>, ops: seq<CacheOp>, k: nat)
    requires IsRun(states, ops) && Unsaturated(states, ops) && k <= |ops|
    ensures states[k].Excess() == LostBytes(states, ops, k)
  {
    if k > 0 {
      DriftIsLostBytes(states, ops, k - 1);
      assert Steps(states[k - 1], ops[k - 1], states[k]);
    }
  }

  const EMPTY_CONTENTS := Contents([], None, None, [], [], [])

  /** A result with nothing in it but one file of `n` bytes under an empty path. */
  function OneFile(n: nat): Cached {
    Cached("", None, EMPTY_CONTENTS.(files := [WorkspaceFile("", "", seq(n, _ => 0))]), 0)
  }

  lemma OneFileBytes(n: nat)
    ensures CacheBytes(OneFile(n)) == n
  {
    var files := OneFile(n).contents.files;
    assert files[1..] == [] && |files[0].data| == n;
    assert FileBytes(files) == n + FileBytes([]);
  }

  /** `rounds` times: store a result of `n` bytes, then one under the same key that is too large. */
  function Rounds(key: QueryKey, n: nat, rounds: nat): seq<CacheOp> {
    if rounds == 0 then []
    else Rounds(key, n, rounds - 1) + [Store(key, OneFile(n))] + [Store(key, OneFile(MAX_BYTES + 1))]
  }

  lemma {:induction false} RoundsLength(key: QueryKey, n: nat, rounds: nat)
    ensures |Rounds(key, n, rounds)| == 2 * rounds
  {
    if rounds > 0 {
      RoundsLength(key, n, rounds - 1);
    }
  }

  lemma OnlyEntry(m: map<QueryKey, Cached>, key: QueryKey)
    requires key in m && OnlyKey(m, key)
    ensures TotalBytes(m) == m[key].bytes && m - {key} == map[]
  {
    TotalWithout(m, key);
    assert m - {key} == map[];
  }

  /** One round on an empty cache leaves it empty, with its counter `n` higher. */
  lemma RoundDrifts(a: CacheState, b: CacheState, c: CacheState, key: QueryKey, n: nat)
    requires a.entries == map[] && n <= MAX_BYTES && a.bytes + n <= U64_MAX
    requires Inserts(a, key, OneFile(n), b) && Inserts(b, key, OneFile(MAX_BYTES + 1), c)
    ensures c == CacheState(map[], a.bytes + n)
  {
    OneFileBytes(n);
    OneFileBytes(MAX_BYTES + 1);
    OnlyEntry(b.entries, key);
  }

  /**
   * The drift accumulates: in every run of such rounds the cache ends empty while its counter stands at
   * everything it ever held.
   */
  lemma {:induction false} DriftGrows(states: seq<CacheState>, key: QueryKey, n: nat, rounds: nat)
    requires IsRun(states, Rounds(key, n, rounds)) && n <= MAX_BYTES && rounds * n <= U64_MAX
    ensures |states| == 2 * rounds + 1 && states[2 * rounds] == CacheState(map[], rounds * n)
  {
    RoundsLength(key, n, rounds);
    if rounds > 0 {
      var ops, k := Rounds(key, n, rounds), 2 * (rounds - 1);
      RoundsLength(key, n, rounds - 1);
      RunFront(states, Rounds(key, n, rounds - 1), ops);
      assert (rounds - 1) * n + n == rounds * n;
      DriftGrows(states[..k + 1], key, n, rounds - 1);
      assert ops[k] == Store(key, OneFile(n)) && ops[k + 1] == Store(key, OneFile(MAX_BYTES + 1));
      assert Steps(states[k], ops[k], states[k + 1]) && Steps(states[k + 1], ops[k + 1], states[k + 2]);
      RoundDrifts(states[k], states[k + 1], states[k + 2], key, n);
    }
  }

  lemma RunFront(states: seq<CacheState>, front: seq<CacheOp>, ops: seq<CacheOp>)
    requires IsRun(states, ops) && front <= ops
    ensures IsRun(states[..|front| + 1], front)
  {
    forall i | 0 <= i < |front| ensures Steps(states[i], front[i], states[i + 1]) {
      assert Steps(states[i], ops[i], states[i + 1]);
    }
  }

  /**
   * A drifted cache forgets: in every run, once two rounds of 32 MiB have passed, storing a small result
   * drops every other one.
   */
  lemma DriftedCacheForgets(states: seq<CacheState>, key: QueryKey, one: QueryKey, other: QueryKey)
    requires IsRun(states, Rounds(key, MAX_BYTES, 2) + [Store(one, OneFile(1)), Store(other, OneFile(1))])
    requires one != other
    ensures |states| == 7 && one in states[5].entries
    ensures other in states[6].entries && one !in states[6].entries
  {
    var ops := Rounds(key, MAX_BYTES, 2) + [Store(one, OneFile(1)), Store(other, OneFile(1))];
    RoundsLength(key, MAX_BYTES, 2);
    RunFront(states, Rounds(key, MAX_BYTES, 2), ops);
    DriftGrows(states[..5], key, MAX_BYTES, 2);
    OneFileBytes(1);
    assert Steps(states[4], ops[4], states[5]) && Steps(states[5], ops[5], states[6]);
    assert states[4] == CacheState(map[], 2 * MAX_BYTES);
  }
}
