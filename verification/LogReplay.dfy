/**
 * Process output that survives reconnects: every attempt replays the same append-only log from the start
 * of the range, and the client shows only the bytes it has not shown yet.
 */
module LogReplay {
  import opened Base

  const CHUNK_MAX_BYTES: nat := 64 * 1024
  const OUTPUT_MAX_BYTES: nat := 512 * 1024 * 1024
  const RANGE_MAX_BYTES: nat := 64 * 1024 * 1024

  /** One emitted record: the offset it is labelled with and its bytes. */
  datatype Log = Log(offset: nat, data: seq<byte>)

  /** The record occupies exactly these bytes of the log. */
  ghost predicate IsSlice(log: seq<byte>, offset: nat, data: seq<byte>) {
    offset + |data| <= |log| && data == log[offset..offset + |data|]
  }

  /** Records that tile `[from, to)`: each is labelled with the end of the one before it. */
  ghost predicate Contiguous(items: seq<Log>, from: nat, to: nat) {
    if items == [] then from == to
    else
      var last := items[|items| - 1];
      last.data != [] && last.offset + |last.data| == to && Contiguous(items[..|items| - 1], from, last.offset)
  }

  ghost predicate FromLog(log: seq<byte>, items: seq<Log>) {
    forall i :: 0 <= i < |items| ==> IsSlice(log, items[i].offset, items[i].data)
  }

  function Joined(items: seq<Log>): seq<byte> {
    if items == [] then [] else Joined(items[..|items| - 1]) + items[|items| - 1].data
  }

  /** Tiles of a log, joined, are the log: nothing repeated, nothing skipped. */
  lemma {:induction false} JoinedIsLog(log: seq<byte>, items: seq<Log>, from: nat, to: nat)
    requires Contiguous(items, from, to) && FromLog(log, items) && from <= |log|
    ensures from <= to <= |log|
    ensures Joined(items) == log[from..to]
  {
    if items != [] {
      var last := items[|items| - 1];
      JoinedIsLog(log, items[..|items| - 1], from, last.offset);
      assert log[from..to] == log[from..last.offset] + log[last.offset..to];
    }
  }

  lemma Append(items: seq<Log>, from: nat, to: nat, item: Log)
    requires Contiguous(items, from, to) && item.offset == to && item.data != []
    ensures Contiguous(items + [item], from, to + |item.data|)
  {
    assert (items + [item])[..|items|] == items;
  }

  // ---------- the unseen part of one chunk ----------

  datatype OutputError = Overflow | Gap

  /** `unseen_suffix`. */
  function UnseenSuffix(offset: nat, data: seq<byte>, seen: nat): Result<Option<seq<byte>>, OutputError> {
    if offset + |data| > U64_MAX then Err(Overflow)
    else if offset > seen then Err(Gap)
    else if offset + |data| <= seen then Ok(None)
    else Ok(Some(data[seen - offset..]))
  }

  lemma SuffixIsSlice(log: seq<byte>, offset: nat, data: seq<byte>, seen: nat)
    requires IsSlice(log, offset, data) && offset <= seen < offset + |data|
    ensures IsSlice(log, seen, data[seen - offset..])
  {
  }

  /** Show what is new of a chunk: both readers below do this for every chunk they accept. */
  method ShowUnseen(emitted: seq<Log>, start: nat, seen: nat, at: nat, data: seq<byte>, ghost log: seq<byte>)
    returns (ok: bool, emitted': seq<Log>, seen': nat)
    requires start <= seen && Contiguous(emitted, start, seen)
    ensures ok <==> at <= seen && at + |data| <= U64_MAX
    ensures seen' == if ok then Max(seen, at + |data|) else seen
    ensures Contiguous(emitted', start, seen')
    ensures FromLog(log, emitted) && IsSlice(log, at, data) ==> FromLog(log, emitted')
  {
    ok, emitted', seen' := true, emitted, seen;
    match UnseenSuffix(at, data, seen)
    case Err(_) => ok := false;
    case Ok(None) =>
    case Ok(Some(suffix)) =>
      Append(emitted, start, seen, Log(seen, suffix));
      if IsSlice(log, at, data) {
        SuffixIsSlice(log, at, data, seen);
      }
      emitted', seen' := emitted + [Log(seen, suffix)], at + |data|;
  }

  // ---------- one range read, replayed until it completes ----------

  datatype Response =
    | Begin(sameStream: bool, total: nat, offset: nat, length: nat)
    | Chunk(offset: nat, data: seq<byte>)
    | End(bytes: nat, complete: bool)
    | Refused

  /** One connection's answer; after the last response it closes.  An error of it carries two classifications. */
  datatype Attempt = Attempt(responses: seq<Response>, credentials: bool, retryable: bool)

  ghost predicate Honest(log: seq<byte>, responses: seq<Response>) {
    forall i :: 0 <= i < |responses| && responses[i].Chunk? ==> IsSlice(log, responses[i].offset, responses[i].data)
  }

  predicate ChunkFits(chunk: Response, at: nat, end: nat) {
    chunk.Chunk? && 0 < |chunk.data| <= CHUNK_MAX_BYTES && chunk.offset == at && at + |chunk.data| <= end
  }

  /** From response `i` on, chunks tile `[at, end)` and the end record closes them. */
  ghost predicate Tail(responses: seq<Response>, i: nat, at: nat, start: nat, end: nat)
    decreases |responses| - i
  {
    if i >= |responses| then false
    else if ChunkFits(responses[i], at, end) then Tail(responses, i + 1, at + |responses[i].data|, start, end)
    else at == end && start <= at && responses[i] == End(at - start, true)
  }

  /** The checks on the first record. */
  predicate Announces(first: Response, offset: nat, requested: Option<nat>, declared: Option<nat>) {
    && first.Begin? && first.sameStream
    && first.total <= OUTPUT_MAX_BYTES && first.offset == offset && offset <= first.total
    && first.length <= first.total - offset && first.length <= RANGE_MAX_BYTES
    && (requested.Some? ==> first.length == requested.value)
    && (declared.Some? ==> first.length == declared.value)
  }

  /** An attempt's responses announce an acceptable range and deliver all of it. */
  ghost predicate Completes(responses: seq<Response>, offset: nat, requested: Option<nat>, declared: Option<nat>) {
    && |responses| > 0 && Announces(responses[0], offset, requested, declared)
    && Tail(responses, 1, offset, offset, offset + responses[0].length)
  }

  /** The range length on record after an attempt: the first acceptable announcement fixes it. */
  function DeclaredBy(responses: seq<Response>, offset: nat, requested: Option<nat>, declared: Option<nat>)
    : Option<nat>
  {
    if declared.None? && |responses| > 0 && Announces(responses[0], offset, requested, declared)
    then Some(responses[0].length) else declared
  }

  /** What is known between attempts: how far the output got and what range was announced. */
  ghost predicate Progress(emitted: seq<Log>, offset: nat, seen: nat, declared: Option<nat>) {
    && offset <= seen && Contiguous(emitted, offset, seen)
    && seen - offset <= (if declared.Some? then declared.value else 0)
  }

  /**
   * `agent_logs_once`.  Whatever the server sends, the records tile the range; whether the attempt
   * completes depends on its responses alone, not on what earlier attempts already showed.
   */
  method LogsOnce(offset: nat, requested: Option<nat>, seen: nat, declared: Option<nat>, emitted: seq<Log>,
                  responses: seq<Response>, ghost log: seq<byte>)
    returns (ok: bool, seen': nat, declared': Option<nat>, emitted': seq<Log>)
    requires Progress(emitted, offset, seen, declared)
    ensures Progress(emitted', offset, seen', declared') && seen <= seen'
    ensures declared' == DeclaredBy(responses, offset, requested, declared)
    ensures ok <==> Completes(responses, offset, requested, declared)
    ensures ok ==> declared' == Some(responses[0].length) && seen' == offset + responses[0].length
    ensures FromLog(log, emitted) && Honest(log, responses) ==> FromLog(log, emitted')
  {
    ok, seen', declared', emitted' := false, seen, declared, emitted;
    if |responses| == 0 || !Announces(responses[0], offset, requested, declared) {
      return;
    }
    var length := responses[0].length;
    declared' := Some(length);
    var received: nat := 0;
    var i := 1;
    while i < |responses|
      invariant 1 <= i <= |responses| && received <= length
      invariant Progress(emitted', offset, seen', declared') && seen <= seen' && offset + received <= seen'
      invariant FromLog(log, emitted) && Honest(log, responses) ==> FromLog(log, emitted')
      invariant Tail(responses, 1, offset, offset, offset + length) ==
                Tail(responses, i, offset + received, offset, offset + length)
    {
      match responses[i] {
        case Chunk(at, data) =>
          if !ChunkFits(responses[i], offset + received, offset + length) {
            return;
          }
          var shown;
          shown, emitted', seen' := ShowUnseen(emitted', offset, seen', at, data, log);
          if !shown {
            return;
          }
          received := received + |data|;
        case End(bytes, complete) =>
          ok := bytes == received && received == length && complete;
          return;
        case _ => return;
      }
      i := i + 1;
    }
  }

  /** What is asked of the server: the caller's length, or the one on record. */
  function Asked(requested: Option<nat>, declared: Option<nat>): Option<nat> {
    if requested.Some? then requested else declared
  }

  /** The range length on record before attempt `k`. */
  function DeclaredAt(offset: nat, requested: Option<nat>, attempts: seq<Attempt>, k: nat): Option<nat>
    requires k <= |attempts|
  {
    if k == 0 then None
    else
      var declared := DeclaredAt(offset, requested, attempts, k - 1);
      DeclaredBy(attempts[k - 1].responses, offset, Asked(requested, declared), declared)
  }

  /** Attempt `k` delivers the whole range that it and the attempts before it announced. */
  ghost predicate CompletesAt(offset: nat, requested: Option<nat>, attempts: seq<Attempt>, k: nat)
    requires k < |attempts|
  {
    var declared := DeclaredAt(offset, requested, attempts, k);
    Completes(attempts[k].responses, offset, Asked(requested, declared), declared)
  }

  // ---------- a server that keeps its word ----------

  function LengthOf(parts: seq<seq<byte>>): nat {
    if parts == [] then 0 else |parts[0]| + LengthOf(parts[1..])
  }

  /** The parts as chunks, each at the end of the one before. */
  function ChunksFrom(at: nat, parts: seq<seq<byte>>): seq<Response>
    decreases |parts|
  {
    if parts == [] then [] else [Chunk(at, parts[0])] + ChunksFrom(at + |parts[0]|, parts[1..])
  }

  predicate PartsFit(parts: seq<seq<byte>>) {
    forall i :: 0 <= i < |parts| ==> 0 < |parts[i]| <= CHUNK_MAX_BYTES
  }

  /** A whole range: the announcement, the parts, and the end. */
  function WholeRange(total: nat, offset: nat, parts: seq<seq<byte>>): seq<Response> {
    [Begin(true, total, offset, LengthOf(parts))] + ChunksFrom(offset, parts) + [End(LengthOf(parts), true)]
  }

  lemma {:induction false} ChunksCloseRange(before: seq<Response>, at: nat, parts: seq<seq<byte>>, start: nat, end: nat)
    requires PartsFit(parts) && start <= at && at + LengthOf(parts) == end
    ensures Tail(before + ChunksFrom(at, parts) + [End(end - start, true)], |before|, at, start, end)
    decreases |parts|
  {
    var responses := before + ChunksFrom(at, parts) + [End(end - start, true)];
    if parts == [] {
      assert responses[|before|] == End(end - start, true);
    } else {
      var first, rest := Chunk(at, parts[0]), at + |parts[0]|;
      ChunksCloseRange(before + [first], rest, parts[1..], start, end);
      assert before + [first] + ChunksFrom(rest, parts[1..]) + [End(end - start, true)] == responses;
      assert responses[|before|] == first && ChunkFits(first, at, end);
    }
  }

  /** However a range is cut, announcing and sending all of it completes the read. */
  lemma WholeRangeCompletes(total: nat, offset: nat, parts: seq<seq<byte>>, requested: Option<nat>,
                            declared: Option<nat>)
    requires PartsFit(parts) && offset + LengthOf(parts) <= total <= OUTPUT_MAX_BYTES
    requires LengthOf(parts) <= RANGE_MAX_BYTES
    requires requested.Some? ==> requested.value == LengthOf(parts)
    requires declared.Some? ==> declared.value == LengthOf(parts)
    ensures Completes(WholeRange(total, offset, parts), offset, requested, declared)
  {
    ChunksCloseRange([Begin(true, total, offset, LengthOf(parts))], offset, parts, offset, offset + LengthOf(parts));
  }

  datatype Retries = Retries(count: nat, refreshed: bool)

  /** What is left of the retry budget after `k` failed attempts, or `None` when the failures end the read. */
  function RetriesAfter(attempts: seq<Attempt>, k: nat): Option<Retries>
    requires k <= |attempts|
  {
    if k == 0 then Some(Retries(0, false))
    else
      match RetriesAfter(attempts, k - 1)
      case None => None
      case Some(r) =>
        if !r.refreshed && attempts[k - 1].credentials then Some(r.(refreshed := true))
        else if r.count < 8 && attempts[k - 1].retryable then Some(r.(count := r.count + 1))
        else None
  }

  lemma {:induction false} GivenUpStaysGivenUp(attempts: seq<Attempt>, k: nat, j: nat)
    requires k <= j <= |attempts| && RetriesAfter(attempts, k).None?
    ensures RetriesAfter(attempts, j).None?
  {
    if k < j {
      GivenUpStaysGivenUp(attempts, k, j - 1);
    }
  }

  /** Some attempt that the failures before it do not rule out delivers the whole range. */
  ghost predicate SomeAttemptCompletes(offset: nat, requested: Option<nat>, attempts: seq<Attempt>) {
    exists k :: 0 <= k < |attempts| && RetriesAfter(attempts, k).Some? && CompletesAt(offset, requested, attempts, k)
  }

  ghost predicate NoneCompletes(offset: nat, requested: Option<nat>, attempts: seq<Attempt>, used: nat)
    requires used <= |attempts|
  {
    forall k :: 0 <= k < used ==> !CompletesAt(offset, requested, attempts, k)
  }

  predicate TooLong(requested: Option<nat>) { requested.Some? && requested.value > RANGE_MAX_BYTES }

  /** So a read succeeds as soon as one attempt within the budget is answered in full. */
  lemma AnsweredReadSucceeds(total: nat, offset: nat, parts: seq<seq<byte>>, requested: Option<nat>,
                             attempts: seq<Attempt>, k: nat)
    requires PartsFit(parts) && offset + LengthOf(parts) <= total <= OUTPUT_MAX_BYTES
    requires LengthOf(parts) <= RANGE_MAX_BYTES
    requires requested.Some? ==> requested.value == LengthOf(parts)
    requires k < |attempts| && RetriesAfter(attempts, k).Some?
    requires DeclaredAt(offset, requested, attempts, k) in {None, Some(LengthOf(parts))}
    requires attempts[k].responses == WholeRange(total, offset, parts)
    ensures SomeAttemptCompletes(offset, requested, attempts)
  {
    var declared := DeclaredAt(offset, requested, attempts, k);
    WholeRangeCompletes(total, offset, parts, Asked(requested, declared), declared);
    assert CompletesAt(offset, requested, attempts, k);
  }

  lemma NoAttemptLeft(offset: nat, requested: Option<nat>, attempts: seq<Attempt>, used: nat)
    requires used <= |attempts| && NoneCompletes(offset, requested, attempts, used)
    requires used == |attempts| || RetriesAfter(attempts, used).None?
    ensures !SomeAttemptCompletes(offset, requested, attempts)
  {
    forall k | 0 <= k < |attempts| && RetriesAfter(attempts, k).Some?
      ensures !CompletesAt(offset, requested, attempts, k)
    {
      if used <= k {
        GivenUpStaysGivenUp(attempts, used, k);
      }
    }
  }

  ghost predicate AllHonest(log: seq<byte>, attempts: seq<Attempt>) {
    forall i :: 0 <= i < |attempts| ==> Honest(log, attempts[i].responses)
  }

  /** How a read ends: with its first completing attempt, or with the budget or the attempts exhausted. */
  ghost predicate EndsAt(offset: nat, requested: Option<nat>, attempts: seq<Attempt>, used: nat, ok: bool) {
    && used <= |attempts|
    && (ok ==> used > 0 && RetriesAfter(attempts, used - 1).Some?
               && CompletesAt(offset, requested, attempts, used - 1)
               && NoneCompletes(offset, requested, attempts, used - 1))
    && (!ok ==> NoneCompletes(offset, requested, attempts, used)
                && (used == |attempts| || RetriesAfter(attempts, used).None?))
  }

  /** The retry loop. */
  method TryAttempts(offset: nat, requested: Option<nat>, attempts: seq<Attempt>, ghost log: seq<byte>)
    returns (ok: bool, seen: nat, emitted: seq<Log>, length: Option<nat>, used: nat)
    ensures used <= 10 && EndsAt(offset, requested, attempts, used, ok)
    ensures Progress(emitted, offset, seen, length)
    ensures ok ==> length == Some(attempts[used - 1].responses[0].length) && seen == offset + length.value
    ensures AllHonest(log, attempts) ==> FromLog(log, emitted)
  {
    seen, ok, emitted, length, used := offset, false, [], None, 0;
    var retries, refreshed := 0, false;
    while used < |attempts|
      invariant used <= |attempts| && retries <= 8 && used == retries + (if refreshed then 1 else 0)
      invariant !ok && Progress(emitted, offset, seen, length)
      invariant RetriesAfter(attempts, used) == Some(Retries(retries, refreshed))
      invariant length == DeclaredAt(offset, requested, attempts, used)
      invariant NoneCompletes(offset, requested, attempts, used)
      invariant AllHonest(log, attempts) ==> FromLog(log, emitted)
      decreases |attempts| - used
    {
      var attempt := attempts[used];
      ok, seen, length, emitted :=
        LogsOnce(offset, Asked(requested, length), seen, length, emitted, attempt.responses, log);
      assert ok <==> CompletesAt(offset, requested, attempts, used);
      used := used + 1;
      if ok {
        return;
      }
      if !refreshed && attempt.credentials {
        refreshed := true;
      } else if retries < 8 && attempt.retryable {
        retries := retries + 1;
      } else {
        return;
      }
    }
  }

  /**
   * `agent_logs_with_retry`: at most eight interrupted attempts and one credential refresh.  The read
   * succeeds if and only if some attempt within that budget delivers the whole range it announces, and the
   * first such one ends it.  The records then are exactly that range of the log; those of a failed read
   * are a beginning of it.
   */
  method LogsWithRetry(offset: nat, requested: Option<nat>, attempts: seq<Attempt>, ghost log: seq<byte>)
    returns (ok: bool, emitted: seq<Log>, length: Option<nat>, used: nat)
    requires offset <= |log|
    ensures used <= 10 && (TooLong(requested) ==> used == 0 && !ok)
    ensures !TooLong(requested) ==>
              && EndsAt(offset, requested, attempts, used, ok)
              && (ok <==> SomeAttemptCompletes(offset, requested, attempts))
    ensures ok ==> length == Some(attempts[used - 1].responses[0].length)
                   && Contiguous(emitted, offset, offset + length.value)
    ensures ok ==> length.value <= RANGE_MAX_BYTES && (requested.Some? ==> length == requested)
    ensures !ok ==> exists to :: offset <= to && Contiguous(emitted, offset, to)
    ensures AllHonest(log, attempts) ==>
              exists to :: offset <= to <= |log| && Joined(emitted) == log[offset..to] &&
                           (ok ==> to == offset + length.value)
  {
    if TooLong(requested) {
      ok, emitted, length, used := false, [], None, 0;
      assert Contiguous([], offset, offset) && Joined([]) == log[offset..offset];
      return;
    }
    var seen;
    ok, seen, emitted, length, used := TryAttempts(offset, requested, attempts, log);
    if !ok {
      NoAttemptLeft(offset, requested, attempts, used);
    }
    if AllHonest(log, attempts) {
      JoinedIsLog(log, emitted, offset, seen);
    }
  }

  // ---------- a command's two output streams, replayed after every reconnect ----------

  datatype OutputStream = Stdout | Stderr

  datatype Output = Output(stream: OutputStream, log: Log)

  datatype OutputEvent = OutputEvent(stream: OutputStream, offset: nat, data: seq<byte>)

  predicate Connects(event: OutputEvent, seen: nat) {
    event.offset <= seen && event.offset + |event.data| <= U64_MAX
  }

  /** A stream's cursor after an event has been shown: only its own stream moves. */
  function Reached(seen: nat, event: OutputEvent, stream: OutputStream): nat {
    if event.stream == stream then Max(seen, event.offset + |event.data|) else seen
  }

  /** The records of one stream, in order. */
  function Of(items: seq<Output>, stream: OutputStream): seq<Log> {
    if items == [] then []
    else
      var last := items[|items| - 1];
      Of(items[..|items| - 1], stream) + (if last.stream == stream then [last.log] else [])
  }

  lemma OfPush(items: seq<Output>, item: Output, stream: OutputStream)
    ensures Of(items + [item], stream)
         == if item.stream == stream then Of(items, stream) + [item.log] else Of(items, stream)
  {
    assert (items + [item])[..|items|] == items;
  }

  /** The records of one stream tile what has been seen of it. */
  ghost predicate Tiled(emitted: seq<Output>, stream: OutputStream, seen: nat) {
    Contiguous(Of(emitted, stream), 0, seen)
  }

  ghost predicate ShownFrom(emitted: seq<Output>, stream: OutputStream, log: seq<byte>) {
    FromLog(log, Of(emitted, stream))
  }

  /** A record pushed on one stream extends that stream's tiling and leaves the other's alone. */
  lemma PushKeeps(emitted: seq<Output>, item: Output, stream: OutputStream, seen: nat, log: seq<byte>)
    requires Tiled(emitted, stream, seen) && item.log.data != []
    requires item.stream == stream ==> item.log.offset == seen
    ensures Tiled(emitted + [item], stream, seen + (if item.stream == stream then |item.log.data| else 0))
    ensures ShownFrom(emitted, stream, log)
            && (item.stream == stream ==> IsSlice(log, item.log.offset, item.log.data)) ==>
              ShownFrom(emitted + [item], stream, log)
  {
    OfPush(emitted, item, stream);
    if item.stream == stream {
      Append(Of(emitted, stream), 0, seen, item.log);
    }
  }

  /** The two complete outputs of the command, as the server journals them. */
  datatype Logs = Logs(stdout: seq<byte>, stderr: seq<byte>) {
    function At(stream: OutputStream): seq<byte> { if stream.Stdout? then stdout else stderr }
  }

  class ExecOutputCursor {
    var stdoutSeen: nat
    var stderrSeen: nat
    var emitted: seq<Output>

    ghost predicate Valid()
      reads this
    {
      Tiled(emitted, Stdout, stdoutSeen) && Tiled(emitted, Stderr, stderrSeen)
    }

    ghost predicate Shows(logs: Logs)
      reads this
    {
      ShownFrom(emitted, Stdout, logs.stdout) && ShownFrom(emitted, Stderr, logs.stderr)
    }

    function Seen(stream: OutputStream): nat
      reads this
    {
      if stream.Stdout? then stdoutSeen else stderrSeen
    }

    constructor ()
      ensures Valid() && stdoutSeen == 0 && stderrSeen == 0 && emitted == []
    {
      stdoutSeen, stderrSeen, emitted := 0, 0, [];
    }

    /** An output event: show its unseen part under its stream's own cursor. */
    method Show(event: OutputEvent, ghost logs: Logs) returns (ok: bool)
      requires Valid()
      modifies this
      ensures Valid()
      ensures ok <==> Connects(event, old(Seen(event.stream)))
      ensures stdoutSeen == if ok then Reached(old(stdoutSeen), event, Stdout) else old(stdoutSeen)
      ensures stderrSeen == if ok then Reached(old(stderrSeen), event, Stderr) else old(stderrSeen)
      ensures old(Shows(logs)) && IsSlice(logs.At(event.stream), event.offset, event.data) ==> Shows(logs)
    {
      var seen := Seen(event.stream);
      match UnseenSuffix(event.offset, event.data, seen)
      case Err(_) => ok := false;
      case Ok(None) => ok := true;
      case Ok(Some(suffix)) =>
        if IsSlice(logs.At(event.stream), event.offset, event.data) {
          SuffixIsSlice(logs.At(event.stream), event.offset, event.data, seen);
        }
        Emit(Output(event.stream, Log(seen, suffix)), logs);
        ok := true;
    }

    /** Emit a record and move its stream's cursor to the record's end. */
    method Emit(item: Output, ghost logs: Logs)
      requires Valid() && item.log.data != [] && item.log.offset == Seen(item.stream)
      modifies this
      ensures Valid() && emitted == old(emitted) + [item]
      ensures stdoutSeen == old(stdoutSeen) + if item.stream.Stdout? then |item.log.data| else 0
      ensures stderrSeen == old(stderrSeen) + if item.stream.Stderr? then |item.log.data| else 0
      ensures old(Shows(logs)) && IsSlice(logs.At(item.stream), item.log.offset, item.log.data) ==> Shows(logs)
    {
      PushKeeps(emitted, item, Stdout, stdoutSeen, logs.stdout);
      PushKeeps(emitted, item, Stderr, stderrSeen, logs.stderr);
      if item.stream.Stdout? {
        stdoutSeen := stdoutSeen + |item.log.data|;
      } else {
        stderrSeen := stderrSeen + |item.log.data|;
      }
      emitted := emitted + [item];
    }
  }

  ghost predicate HonestEvents(events: seq<OutputEvent>, logs: Logs) {
    forall i :: 0 <= i < |events| ==> IsSlice(logs.At(events[i].stream), events[i].offset, events[i].data)
  }

  /** How far the events of a stream reach. */
  function Reach(events: seq<OutputEvent>, stream: OutputStream): nat {
    if events == [] then 0 else Reached(Reach(events[..|events| - 1], stream), events[|events| - 1], stream)
  }

  /** A replay from the beginning: every event starts within what the ones before it reached. */
  predicate FromTheStart(events: seq<OutputEvent>) {
    forall i :: 0 <= i < |events| ==> Connects(events[i], Reach(events[..i], events[i].stream))
  }

  predicate AllShown(events: seq<OutputEvent>, stdoutSeen: nat, stderrSeen: nat) {
    Reach(events, Stdout) <= stdoutSeen && Reach(events, Stderr) <= stderrSeen
  }

  /** One attempt's output events, up to the first that does not connect. */
  method ExecOnce(cursor: ExecOutputCursor, events: seq<OutputEvent>, ghost logs: Logs) returns (ok: bool)
    requires cursor.Valid()
    modifies cursor
    ensures cursor.Valid()
    ensures old(cursor.stdoutSeen) <= cursor.stdoutSeen && old(cursor.stderrSeen) <= cursor.stderrSeen
    ensures ok ==> AllShown(events, cursor.stdoutSeen, cursor.stderrSeen)
    ensures !ok ==> exists i :: 0 <= i < |events| && !Connects(events[i], cursor.Seen(events[i].stream))
    ensures FromTheStart(events) ==> ok
    ensures old(cursor.Shows(logs)) && HonestEvents(events, logs) ==> cursor.Shows(logs)
  {
    for i := 0 to |events|
      invariant cursor.Valid()
      invariant old(cursor.stdoutSeen) <= cursor.stdoutSeen && old(cursor.stderrSeen) <= cursor.stderrSeen
      invariant AllShown(events[..i], cursor.stdoutSeen, cursor.stderrSeen)
      invariant old(cursor.Shows(logs)) && HonestEvents(events, logs) ==> cursor.Shows(logs)
    {
      assert events[..i + 1][..i] == events[..i];
      ok := cursor.Show(events[i], logs);
      if !ok {
        return;
      }
    }
    assert events[..|events|] == events;
    ok := true;
  }

  /** Attempts that went through are shown, and those that replay from the start went through. */
  ghost predicate Covered(attempts: seq<seq<OutputEvent>>, oks: seq<bool>, stdoutSeen: nat, stderrSeen: nat) {
    && |oks| <= |attempts|
    && (forall i :: 0 <= i < |oks| && oks[i] ==> AllShown(attempts[i], stdoutSeen, stderrSeen))
    && (forall i :: 0 <= i < |oks| && FromTheStart(attempts[i]) ==> oks[i])
  }

  lemma CoveredPush(attempts: seq<seq<OutputEvent>>, oks: seq<bool>, ok: bool,
                    stdoutSeen: nat, stderrSeen: nat, stdoutSeen': nat, stderrSeen': nat)
    requires Covered(attempts, oks, stdoutSeen, stderrSeen) && |oks| < |attempts|
    requires stdoutSeen <= stdoutSeen' && stderrSeen <= stderrSeen'
    requires ok ==> AllShown(attempts[|oks|], stdoutSeen', stderrSeen')
    requires FromTheStart(attempts[|oks|]) ==> ok
    ensures Covered(attempts, oks + [ok], stdoutSeen', stderrSeen')
  {}

  method ExecAttempts(cursor: ExecOutputCursor, attempts: seq<seq<OutputEvent>>, ghost logs: Logs)
    returns (oks: seq<bool>)
    requires cursor.Valid() && cursor.Shows(logs)
    requires forall i :: 0 <= i < |attempts| ==> HonestEvents(attempts[i], logs)
    modifies cursor
    ensures cursor.Valid() && cursor.Shows(logs)
    ensures |oks| == |attempts| && Covered(attempts, oks, cursor.stdoutSeen, cursor.stderrSeen)
  {
    oks := [];
    for i := 0 to |attempts|
      invariant cursor.Valid() && cursor.Shows(logs) && |oks| == i
      invariant Covered(attempts, oks, cursor.stdoutSeen, cursor.stderrSeen)
    {
      ghost var stdoutSeen, stderrSeen := cursor.stdoutSeen, cursor.stderrSeen;
      var ok := ExecOnce(cursor, attempts[i], logs);
      CoveredPush(attempts, oks, ok, stdoutSeen, stderrSeen, cursor.stdoutSeen, cursor.stderrSeen);
      oks := oks + [ok];
    }
  }

  /**
   * A command's output over any number of attempts, each replaying the journal from wherever the server
   * starts: what is shown of each stream is exactly the beginning of that stream, once, and it covers every
   * attempt whose events connect, in particular every one that replays from the start.
   */
  method ExecReplays(attempts: seq<seq<OutputEvent>>, ghost logs: Logs)
    returns (emitted: seq<Output>, stdoutSeen: nat, stderrSeen: nat, oks: seq<bool>)
    requires forall i :: 0 <= i < |attempts| ==> HonestEvents(attempts[i], logs)
    ensures Contiguous(Of(emitted, Stdout), 0, stdoutSeen) && Contiguous(Of(emitted, Stderr), 0, stderrSeen)
    ensures stdoutSeen <= |logs.stdout| && Joined(Of(emitted, Stdout)) == logs.stdout[..stdoutSeen]
    ensures stderrSeen <= |logs.stderr| && Joined(Of(emitted, Stderr)) == logs.stderr[..stderrSeen]
    ensures |oks| == |attempts| && Covered(attempts, oks, stdoutSeen, stderrSeen)
  {
    var cursor := new ExecOutputCursor();
    oks := ExecAttempts(cursor, attempts, logs);
    emitted, stdoutSeen, stderrSeen := cursor.emitted, cursor.stdoutSeen, cursor.stderrSeen;
    JoinedIsLog(logs.stdout, Of(emitted, Stdout), 0, stdoutSeen);
    JoinedIsLog(logs.stderr, Of(emitted, Stderr), 0, stderrSeen);
  }
}
