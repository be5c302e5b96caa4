/**
 * The benchmark's UDP shaper: a bounded queue that delays, jitters, drops and rate-limits
 * datagrams in two directions.  Instants are nanoseconds; random draws and clock readings are
 * parameters.
 */
module Shaper {
  import opened Base

  const MAX_PENDING_PACKETS: nat := 1024
  const MAX_PENDING_BYTES: nat := 32 * 1024 * 1024
  const MAX_DATAGRAM_BYTES: nat := 65_535
  const NANOS_PER_MILLI: nat := 1_000_000
  const NANOS_PER_SECOND: nat := 1_000_000_000

  datatype Config = Config(target: nat, delayMs: nat, jitterMs: nat, lossPercent: nat, rateMbit: nat)

  datatype Packet = Packet(due: nat, order: nat, destination: nat, payload: seq<byte>)

  datatype Stats = Stats(
    receivedPackets: nat, receivedBytes: nat,
    forwardedPackets: nat, forwardedBytes: nat,
    lostPackets: nat, queueDroppedPackets: nat, repliesBeforeClient: nat)

  // ---------- scheduling ----------

  function BitsPerSecond(rateMbit: nat): nat { rateMbit * 1_000_000 }

  /** `serialization_duration`: time on the wire, rounded up, at least one nanosecond. */
  function SerializationNanos(rateMbit: nat, bytes: nat): nat {
    if rateMbit == 0 || bytes == 0 then 0
    else
      var bps := BitsPerSecond(rateMbit);
      Min(Max((bytes * 8 * NANOS_PER_SECOND + bps - 1) / bps, 1), U64_MAX)
  }

  lemma CeilingCovers(n: nat, d: nat)
    requires d > 0
    ensures (n + d - 1) / d * d >= n
  {
    assert n + d - 1 == (n + d - 1) / d * d + (n + d - 1) % d;
  }

  lemma {:induction false} ProductBound(n: nat, d: nat)
    requires n > 0 && d > 0
    ensures n + d - 1 <= n * d
  {
    if n > 1 {
      ProductBound(n - 1, d);
      assert n * d == (n - 1) * d + d;
    }
  }

  lemma CancelFactor(q: nat, n: nat, d: nat)
    requires d > 0 && q * d <= n * d
    ensures q <= n
  {}

  lemma CeilingBound(n: nat, d: nat)
    requires n > 0 && d > 0
    ensures (n + d - 1) / d <= n
  {
    ProductBound(n, d);
    assert n + d - 1 == (n + d - 1) / d * d + (n + d - 1) % d;
    CancelFactor((n + d - 1) / d, n, d);
  }

  /** The wire time of a datagram is long enough for its bits at the configured rate. */
  lemma WireTimeCoversBits(rateMbit: nat, bytes: nat)
    requires rateMbit > 0 && bytes <= MAX_DATAGRAM_BYTES
    ensures SerializationNanos(rateMbit, bytes) * BitsPerSecond(rateMbit) >= bytes * 8 * NANOS_PER_SECOND
  {
    if bytes > 0 {
      var n, bps := bytes * 8 * NANOS_PER_SECOND, BitsPerSecond(rateMbit);
      CeilingCovers(n, bps);
      CeilingBound(n, bps);
      assert SerializationNanos(rateMbit, bytes) == Max((n + bps - 1) / bps, 1);
    }
  }

  lemma ProductMonotone(q: nat, t: nat, d: nat)
    requires q <= t
    ensures q * d <= t * d
  {
    assert t * d == q * d + (t - q) * d;
  }

  lemma LeastMultiple(n: nat, d: nat, q: nat, t: nat)
    requires n <= q * d < n + d
    ensures q <= t <==> t * d >= n
  {
    if q <= t {
      ProductMonotone(q, t, d);
    } else {
      ProductMonotone(t + 1, q, d);
      assert (t + 1) * d == t * d + d;
    }
  }

  lemma CeilingIsLeast(n: nat, d: nat, t: nat)
    requires d > 0
    ensures (n + d - 1) / d <= t <==> t * d >= n
  {
    CeilingCovers(n, d);
    assert n + d - 1 == (n + d - 1) / d * d + (n + d - 1) % d;
    LeastMultiple(n, d, (n + d - 1) / d, t);
  }

  /** It is no longer than that: of the times of at least a nanosecond it is the least that covers the bits. */
  lemma WireTimeIsLeast(rateMbit: nat, bytes: nat, t: nat)
    requires rateMbit > 0 && 0 < bytes <= MAX_DATAGRAM_BYTES && t >= 1
    ensures SerializationNanos(rateMbit, bytes) <= t <==> t * BitsPerSecond(rateMbit) >= bytes * 8 * NANOS_PER_SECOND
  {
    var n, bps := bytes * 8 * NANOS_PER_SECOND, BitsPerSecond(rateMbit);
    CeilingIsLeast(n, bps, t);
    CeilingBound(n, bps);
    assert SerializationNanos(rateMbit, bytes) == Max((n + bps - 1) / bps, 1);
  }

  /** Nothing takes no time, and so does everything without a rate limit. */
  lemma WireTimeOfNothing(rateMbit: nat, bytes: nat)
    ensures SerializationNanos(rateMbit, bytes) == 0 <==> rateMbit == 0 || bytes == 0
  {
    if rateMbit > 0 && bytes > 0 {
      assert Max((bytes * 8 * NANOS_PER_SECOND + BitsPerSecond(rateMbit) - 1) / BitsPerSecond(rateMbit), 1) >= 1;
    }
  }

  /** The signed jitter in milliseconds: spread evenly around zero, never beyond the configured bound. */
  function Jitter(jitterMs: nat, draw: nat): (r: int)
    ensures 0 <= r + jitterMs && r <= jitterMs
  {
    if jitterMs == 0 then 0 else draw % SatAdd(SatAdd(jitterMs, jitterMs), 1) - jitterMs
  }

  /** Each of the `2 * jitterMs + 1` values is hit by exactly one draw in that many. */
  lemma JitterIsEven(jitterMs: nat, draw: nat, value: int)
    requires 0 <= value + jitterMs && value <= jitterMs && 2 * jitterMs + 1 <= U64_MAX
    ensures Jitter(jitterMs, draw) == value <==> draw % (2 * jitterMs + 1) == value + jitterMs
  {}

  /** When a datagram could leave if its direction were free: after the delay, jittered, and not before it came. */
  function DelayedArrival(delayMs: nat, jitterMs: nat, now: nat, draw: nat): nat {
    now + Max(0, delayMs + Jitter(jitterMs, draw)) * NANOS_PER_MILLI
  }

  /** `shaped_due`: the due time and the earliest start of the next datagram of that direction. */
  method ShapedDue(now: nat, delayMs: nat, jitterMs: nat, rateMbit: nat, bytes: nat, nextSend: nat, draw: nat)
    returns (due: nat, nextSend': nat)
    ensures due == Max(nextSend, DelayedArrival(delayMs, jitterMs, now, draw))
    ensures nextSend' == due + SerializationNanos(rateMbit, bytes)
  {
    var delay := delayMs + Jitter(jitterMs, draw);
    due := if delay <= 0 then now else now + delay * NANOS_PER_MILLI;
    if due < nextSend {
      due := nextSend;
    }
    if rateMbit != 0 {
      nextSend' := due + SerializationNanos(rateMbit, bytes);
    } else {
      nextSend' := due;
    }
  }

  /** Later datagrams of a direction start after earlier ones have left the wire. */
  predicate Spaced(rateMbit: nat, accepted: seq<Packet>, nextSend: nat) {
    && (forall i :: 0 <= i < |accepted| ==> |accepted[i].payload| <= MAX_DATAGRAM_BYTES)
    && (forall i :: 0 <= i < |accepted| ==> WireEnd(rateMbit, accepted[i]) <= nextSend)
    && (forall i, j :: 0 <= i < j < |accepted| ==> WireEnd(rateMbit, accepted[i]) <= accepted[j].due)
  }

  function WireEnd(rateMbit: nat, p: Packet): nat {
    p.due + SerializationNanos(rateMbit, |p.payload|)
  }

  function TotalBytes(packets: seq<Packet>): nat {
    if packets == [] then 0 else TotalBytes(packets[..|packets| - 1]) + |packets[|packets| - 1].payload|
  }

  /** The bits of so many bytes fit into the time at the rate. */
  predicate FitsInto(bytes: nat, bps: nat, nanos: nat) { bytes * 8 * NANOS_PER_SECOND <= bps * nanos }

  /** One more datagram: its wire time makes room for its bits. */
  lemma RateStep(bps: nat, sum: nat, bytes: nat, elapsed: nat, wire: nat, total: nat)
    requires FitsInto(sum, bps, elapsed) && FitsInto(bytes, bps, wire) && elapsed + wire <= total
    ensures FitsInto(sum + bytes, bps, total)
  {
    assert bps * total == bps * elapsed + bps * wire + bps * (total - elapsed - wire);
  }

  /** Payload bytes of the datagrams from `i` up to, not including, `j`. */
  function BytesBetween(packets: seq<Packet>, i: nat, j: nat): nat
    requires j <= |packets|
  {
    if i >= j then 0 else BytesBetween(packets, i, j - 1) + |packets[j - 1].payload|
  }

  /** The bound for any wire time that covers the bits of each datagram. */
  lemma {:induction false} RateChain(bps: nat, wire: Packet -> nat, accepted: seq<Packet>, i: nat, j: nat)
    requires forall k :: 0 <= k < |accepted| ==> FitsInto(|accepted[k].payload|, bps, wire(accepted[k]))
    requires forall k, m :: 0 <= k < m < |accepted| ==> accepted[k].due + wire(accepted[k]) <= accepted[m].due
    requires i <= j < |accepted|
    ensures accepted[i].due <= accepted[j].due
    ensures FitsInto(BytesBetween(accepted, i, j), bps, accepted[j].due - accepted[i].due)
    decreases j - i
  {
    if i < j {
      RateChain(bps, wire, accepted, i, j - 1);
      var p, first, last := accepted[j - 1], accepted[i].due, accepted[j].due;
      RateStep(bps, BytesBetween(accepted, i, j - 1), |p.payload|, p.due - first, wire(p), last - first);
    }
  }

  /**
   * The rate bound: the bits scheduled from datagram `i` up to, not including, datagram `j` of one
   * direction fit into the time between their due times at the configured rate.
   */
  lemma RateIsNeverExceeded(rateMbit: nat, accepted: seq<Packet>, nextSend: nat, i: nat, j: nat)
    requires rateMbit > 0 && Spaced(rateMbit, accepted, nextSend) && i <= j < |accepted|
    ensures accepted[i].due <= accepted[j].due
    ensures BytesBetween(accepted, i, j) * 8 * NANOS_PER_SECOND
            <= BitsPerSecond(rateMbit) * (accepted[j].due - accepted[i].due)
  {
    var wire := (p: Packet) => SerializationNanos(rateMbit, |p.payload|);
    forall k | 0 <= k < |accepted|
      ensures FitsInto(|accepted[k].payload|, BitsPerSecond(rateMbit), wire(accepted[k]))
    {
      WireTimeCoversBits(rateMbit, |accepted[k].payload|);
    }
    forall k, m | 0 <= k < m < |accepted| ensures accepted[k].due + wire(accepted[k]) <= accepted[m].due {
      assert WireEnd(rateMbit, accepted[k]) <= accepted[m].due;
    }
    RateChain(BitsPerSecond(rateMbit), wire, accepted, i, j);
  }

  lemma SpacedPush(rateMbit: nat, accepted: seq<Packet>, nextSend: nat, p: Packet)
    requires Spaced(rateMbit, accepted, nextSend) && p.due >= nextSend && |p.payload| <= MAX_DATAGRAM_BYTES
    ensures Spaced(rateMbit, accepted + [p], WireEnd(rateMbit, p))
  {}

  // ---------- queue order ----------

  predicate Toward(target: nat, toServer: bool, p: Packet) { (p.destination == target) == toServer }

  /** The datagrams of one direction, in sequence. */
  function Lane(target: nat, toServer: bool, packets: seq<Packet>): seq<Packet> {
    if packets == [] then []
    else
      Lane(target, toServer, packets[..|packets| - 1])
      + if Toward(target, toServer, packets[|packets| - 1]) then [packets[|packets| - 1]] else []
  }

  lemma LanePush(target: nat, toServer: bool, packets: seq<Packet>, p: Packet)
    ensures Lane(target, toServer, packets + [p])
         == Lane(target, toServer, packets) + if Toward(target, toServer, p) then [p] else []
  {
    assert (packets + [p])[..|packets|] == packets;
  }

  predicate DistinctOrders(packets: seq<Packet>) {
    forall i, j :: 0 <= i < j < |packets| ==> packets[i].order != packets[j].order
  }

  /** From index `n` on, the accepted packets of a direction are exactly its waiting ones. */
  predicate Waits(target: nat, toServer: bool, accepted: seq<Packet>, n: nat, pending: seq<Packet>) {
    && n <= |accepted|
    && (forall i :: n <= i < |accepted| ==> accepted[i] in pending)
    && (forall p :: p in pending && Toward(target, toServer, p) ==> p in accepted[n..])
  }

  predicate Ascending(accepted: seq<Packet>) {
    forall i, j :: 0 <= i < j < |accepted| ==>
      accepted[i].order < accepted[j].order && accepted[i].due <= accepted[j].due
  }

  /** What has left in one direction is a prefix of what was accepted; the rest is exactly what waits. */
  predicate Fifo(target: nat, toServer: bool, accepted: seq<Packet>, pending: seq<Packet>, out: seq<Packet>) {
    && Lane(target, toServer, out) <= accepted
    && (forall i :: 0 <= i < |accepted| ==> Toward(target, toServer, accepted[i]))
    && Ascending(accepted) && Waits(target, toServer, accepted, |Lane(target, toServer, out)|, pending)
  }

  lemma FifoPushOwn(target: nat, toServer: bool, accepted: seq<Packet>, pending: seq<Packet>, out: seq<Packet>,
                    p: Packet)
    requires Fifo(target, toServer, accepted, pending, out) && Toward(target, toServer, p)
    requires forall i :: 0 <= i < |accepted| ==> accepted[i].order < p.order && accepted[i].due <= p.due
    ensures Fifo(target, toServer, accepted + [p], pending + [p], out)
  {
    var n := |Lane(target, toServer, out)|;
    assert (accepted + [p])[n..] == accepted[n..] + [p];
  }

  lemma FifoPushOther(target: nat, toServer: bool, accepted: seq<Packet>, pending: seq<Packet>, out: seq<Packet>,
                      p: Packet)
    requires Fifo(target, toServer, accepted, pending, out) && !Toward(target, toServer, p)
    ensures Fifo(target, toServer, accepted, pending + [p], out)
  {}

  /** `Vec::swap_remove`. */
  function SwapRemove(packets: seq<Packet>, i: nat): seq<Packet>
    requires i < |packets|
  {
    packets[i := packets[|packets| - 1]][..|packets| - 1]
  }

  lemma SwapRemoveMembers(packets: seq<Packet>, i: nat)
    requires i < |packets| && DistinctOrders(packets)
    ensures DistinctOrders(SwapRemove(packets, i))
    ensures forall p :: p in SwapRemove(packets, i) <==> p in packets && p != packets[i]
  {
    var n, r := |packets| - 1, SwapRemove(packets, i);
    forall p | p in packets && p != packets[i] ensures p in r {
      var k :| 0 <= k < |packets| && packets[k] == p;
      assert k < n ==> r[k] == p;
      assert k == n ==> r[i] == p;
    }
    forall p | p in r ensures p in packets && p != packets[i] {
      var k :| 0 <= k < n && r[k] == p;
      assert p == packets[if k == i then n else k];
    }
  }

  /** `i` is the due packet with the smallest (due, order). */
  predicate IsNextDue(packets: seq<Packet>, now: nat, i: nat) {
    && i < |packets| && packets[i].due <= now
    && forall k :: 0 <= k < |packets| && packets[k].due <= now ==> !Before(packets[k], packets[i])
  }

  predicate Before(p: Packet, q: Packet) {
    p.due < q.due || (p.due == q.due && p.order < q.order)
  }

  method FindDue(packets: seq<Packet>, now: nat) returns (r: Option<nat>)
    ensures r.Some? ==> IsNextDue(packets, now, r.value)
    ensures r.None? ==> forall k :: 0 <= k < |packets| ==> packets[k].due > now
  {
    r := None;
    for i := 0 to |packets|
      invariant r.Some? ==> IsNextDue(packets[..i], now, r.value)
      invariant r.None? ==> forall k :: 0 <= k < i ==> packets[k].due > now
    {
      assert forall k :: 0 <= k < i ==> packets[..i][k] == packets[..i + 1][k];
      if packets[i].due <= now && (r.None? || Before(packets[i], packets[r.value])) {
        r := Some(i);
      }
    }
    assert packets[..|packets|] == packets;
  }

  /** The next due packet is the oldest waiting one of its direction. */
  lemma NextDueIsOldest(target: nat, toServer: bool, accepted: seq<Packet>, pending: seq<Packet>, out: seq<Packet>,
                        now: nat, i: nat)
    requires Fifo(target, toServer, accepted, pending, out)
    requires IsNextDue(pending, now, i) && Toward(target, toServer, pending[i])
    ensures |Lane(target, toServer, out)| < |accepted|
    ensures pending[i] == accepted[|Lane(target, toServer, out)|]
  {
    var n := |Lane(target, toServer, out)|;
    assert pending[i] in accepted[n..];
    var k :| n <= k < |accepted| && accepted[k] == pending[i];
    assert accepted[n] in pending;
    var m :| 0 <= m < |pending| && pending[m] == accepted[n];
    assert !Before(pending[m], pending[i]);
  }

  lemma WaitsPop(target: nat, toServer: bool, accepted: seq<Packet>, n: nat, pending: seq<Packet>, i: nat)
    requires Waits(target, toServer, accepted, n, pending) && Ascending(accepted) && DistinctOrders(pending)
    requires i < |pending| && n < |accepted| && pending[i] == accepted[n]
    ensures Waits(target, toServer, accepted, n + 1, SwapRemove(pending, i))
  {
    SwapRemoveMembers(pending, i);
    assert accepted[n..] == [accepted[n]] + accepted[n + 1..];
    forall k | n + 1 <= k < |accepted| ensures accepted[k] in SwapRemove(pending, i) {
      assert accepted[n].order < accepted[k].order;
    }
  }

  lemma FifoPopOwn(target: nat, toServer: bool, accepted: seq<Packet>, pending: seq<Packet>, out: seq<Packet>,
                   now: nat, i: nat)
    requires Fifo(target, toServer, accepted, pending, out) && DistinctOrders(pending)
    requires IsNextDue(pending, now, i) && Toward(target, toServer, pending[i])
    ensures Fifo(target, toServer, accepted, SwapRemove(pending, i), out + [pending[i]])
  {
    NextDueIsOldest(target, toServer, accepted, pending, out, now, i);
    LanePush(target, toServer, out, pending[i]);
    WaitsPop(target, toServer, accepted, |Lane(target, toServer, out)|, pending, i);
  }

  lemma FifoPopOther(target: nat, toServer: bool, accepted: seq<Packet>, pending: seq<Packet>, out: seq<Packet>, i: nat)
    requires Fifo(target, toServer, accepted, pending, out) && DistinctOrders(pending)
    requires i < |pending| && !Toward(target, toServer, pending[i])
    ensures Fifo(target, toServer, accepted, SwapRemove(pending, i), out + [pending[i]])
  {
    LanePush(target, toServer, out, pending[i]);
    SwapRemoveMembers(pending, i);
    var n := |Lane(target, toServer, out)|;
    forall k | n <= k < |accepted| ensures accepted[k] in SwapRemove(pending, i) {
      assert Toward(target, toServer, accepted[k]);
    }
  }

  /** Removing one packet from the queue and appending it to the output moves exactly that packet. */
  lemma SwapRemoveMoves(packets: seq<Packet>, i: nat)
    requires i < |packets|
    ensures multiset(packets) == multiset(SwapRemove(packets, i)) + multiset{packets[i]}
    ensures |SwapRemove(packets, i)| == |packets| - 1
  {
    var n := |packets| - 1;
    var swapped := packets[i := packets[n]];
    assert swapped == SwapRemove(packets, i) + [packets[n]];
    assert packets == packets[..i] + [packets[i]] + packets[i + 1..];
    assert multiset(swapped) == multiset(packets) - multiset{packets[i]} + multiset{packets[n]};
  }

  lemma {:induction false} TotalBytesUpdate(packets: seq<Packet>, i: nat, p: Packet)
    requires i < |packets|
    ensures TotalBytes(packets[i := p]) + |packets[i].payload| == TotalBytes(packets) + |p.payload|
  {
    var n := |packets| - 1;
    if i == n {
      assert packets[i := p][..n] == packets[..n];
    } else {
      TotalBytesUpdate(packets[..n], i, p);
      assert packets[i := p][..n] == packets[..n][i := p];
    }
  }

  lemma SwapRemoveBytes(packets: seq<Packet>, i: nat)
    requires i < |packets|
    ensures TotalBytes(SwapRemove(packets, i)) + |packets[i].payload| == TotalBytes(packets)
  {
    TotalBytesUpdate(packets, i, packets[|packets| - 1]);
  }

  // ---------- the proxy ----------

  /** What really happened, without the saturation of the reported counters. */
  datatype Tally = Tally(received: nat, receivedBytes: nat, lost: nat, dropped: nat, early: nat)

  /** Reported counters are the true ones, capped at the largest `u64`. */
  predicate Reported(stats: Stats, t: Tally, out: seq<Packet>) {
    && stats.receivedPackets == Min(t.received, U64_MAX) && stats.receivedBytes == Min(t.receivedBytes, U64_MAX)
    && stats.forwardedPackets == Min(|out|, U64_MAX) && stats.forwardedBytes == Min(TotalBytes(out), U64_MAX)
    && stats.lostPackets == Min(t.lost, U64_MAX) && stats.queueDroppedPackets == Min(t.dropped, U64_MAX)
    && stats.repliesBeforeClient == Min(t.early, U64_MAX)
  }

  predicate OrdersBelow(packets: seq<Packet>, limit: nat) {
    forall i :: 0 <= i < |packets| ==> packets[i].order < limit
  }

  /** Both directions are first-in first-out; meaningful until the 64-bit order counter wraps. */
  predicate InOrder(target: nat, toServer: seq<Packet>, toClient: seq<Packet>, pending: seq<Packet>, out: seq<Packet>,
                    nextOrder: nat) {
    && nextOrder == |toServer| + |toClient|
    && OrdersBelow(toServer, nextOrder) && OrdersBelow(toClient, nextOrder) && OrdersBelow(pending, nextOrder)
    && DistinctOrders(pending)
    && Fifo(target, true, toServer, pending, out) && Fifo(target, false, toClient, pending, out)
  }

  lemma InOrderPush(target: nat, toServer: seq<Packet>, toClient: seq<Packet>, pending: seq<Packet>, out: seq<Packet>,
                    p: Packet)
    requires InOrder(target, toServer, toClient, pending, out, p.order)
    requires forall i :: 0 <= i < |toServer| && p.destination == target ==> toServer[i].due <= p.due
    requires forall i :: 0 <= i < |toClient| && p.destination != target ==> toClient[i].due <= p.due
    ensures if p.destination == target
            then InOrder(target, toServer + [p], toClient, pending + [p], out, p.order + 1)
            else InOrder(target, toServer, toClient + [p], pending + [p], out, p.order + 1)
  {
    if p.destination == target {
      FifoPushOwn(target, true, toServer, pending, out, p);
      FifoPushOther(target, false, toClient, pending, out, p);
    } else {
      FifoPushOther(target, true, toServer, pending, out, p);
      FifoPushOwn(target, false, toClient, pending, out, p);
    }
  }

  lemma InOrderPop(target: nat, toServer: seq<Packet>, toClient: seq<Packet>, pending: seq<Packet>, out: seq<Packet>,
                   nextOrder: nat, now: nat, i: nat)
    requires InOrder(target, toServer, toClient, pending, out, nextOrder) && IsNextDue(pending, now, i)
    ensures InOrder(target, toServer, toClient, SwapRemove(pending, i), out + [pending[i]], nextOrder)
  {
    if pending[i].destination == target {
      FifoPopOwn(target, true, toServer, pending, out, now, i);
      FifoPopOther(target, false, toClient, pending, out, i);
    } else {
      FifoPopOther(target, true, toServer, pending, out, i);
      FifoPopOwn(target, false, toClient, pending, out, now, i);
    }
    SwapRemoveMembers(pending, i);
    forall k | 0 <= k < |SwapRemove(pending, i)| ensures SwapRemove(pending, i)[k].order < nextOrder {
      assert SwapRemove(pending, i)[k] in pending;
    }
  }

  /** The queue and its history: everything ever accepted per direction and everything ever forwarded. */
  datatype Queue = Queue(
    pending: seq<Packet>, pendingBytes: nat,
    nextClientSend: nat, nextServerSend: nat, nextOrder: nat,
    toServer: seq<Packet>, toClient: seq<Packet>, out: seq<Packet>)

  /** Bounded, spaced, in order, and holding exactly what was accepted and not yet forwarded. */
  predicate QueueOk(c: Config, q: Queue) {
    && |q.pending| <= MAX_PENDING_PACKETS && q.pendingBytes == TotalBytes(q.pending) <= MAX_PENDING_BYTES
    && Spaced(c.rateMbit, q.toServer, q.nextClientSend) && Spaced(c.rateMbit, q.toClient, q.nextServerSend)
    && (|q.toServer| + |q.toClient| <= U64_MAX ==>
          InOrder(c.target, q.toServer, q.toClient, q.pending, q.out, q.nextOrder))
    && multiset(q.pending) + multiset(q.out) == multiset(q.toServer) + multiset(q.toClient)
  }

  /** The queue after accepting `p`. */
  function Accept(c: Config, q: Queue, p: Packet): Queue {
    var next := WireEnd(c.rateMbit, p);
    var r := q.(pending := q.pending + [p], pendingBytes := q.pendingBytes + |p.payload|,
                nextOrder := if q.nextOrder == U64_MAX then 0 else q.nextOrder + 1);
    if p.destination == c.target then r.(toServer := q.toServer + [p], nextClientSend := next)
    else r.(toClient := q.toClient + [p], nextServerSend := next)
  }

  /** The queue after forwarding the packet at index `i`. */
  function Forward(q: Queue, i: nat): Queue
    requires i < |q.pending|
  {
    q.(pending := SwapRemove(q.pending, i), pendingBytes := SatSub(q.pendingBytes, |q.pending[i].payload|),
       out := q.out + [q.pending[i]])
  }

  lemma SpacedDues(rateMbit: nat, accepted: seq<Packet>, nextSend: nat)
    requires Spaced(rateMbit, accepted, nextSend)
    ensures forall i :: 0 <= i < |accepted| ==> accepted[i].due <= nextSend
  {
    forall i | 0 <= i < |accepted| ensures accepted[i].due <= nextSend {
      assert WireEnd(rateMbit, accepted[i]) <= nextSend;
    }
  }

  lemma AcceptInOrder(c: Config, q: Queue, p: Packet)
    requires QueueOk(c, q) && p.order == q.nextOrder
    requires p.due >= if p.destination == c.target then q.nextClientSend else q.nextServerSend
    requires |q.toServer| + |q.toClient| < U64_MAX
    ensures var r := Accept(c, q, p); InOrder(c.target, r.toServer, r.toClient, r.pending, r.out, r.nextOrder)
  {
    SpacedDues(c.rateMbit, q.toServer, q.nextClientSend);
    SpacedDues(c.rateMbit, q.toClient, q.nextServerSend);
    InOrderPush(c.target, q.toServer, q.toClient, q.pending, q.out, p);
  }

  lemma AddToBoth(a: multiset<Packet>, b: multiset<Packet>, c: multiset<Packet>, d: multiset<Packet>,
                  x: multiset<Packet>)
    requires a + b == c + d
    ensures a + x + b == c + x + d && a + x + b == c + (d + x)
  {
    forall e: Packet ensures (a + x + b)[e] == (c + x + d)[e] == (c + (d + x))[e] {
      assert (a + b)[e] == (c + d)[e];
    }
  }

  lemma AcceptCounts(c: Config, q: Queue, p: Packet)
    requires q.pendingBytes == TotalBytes(q.pending)
    requires multiset(q.pending) + multiset(q.out) == multiset(q.toServer) + multiset(q.toClient)
    ensures var r := Accept(c, q, p);
            && r.pendingBytes == TotalBytes(r.pending)
            && multiset(r.pending) + multiset(r.out) == multiset(r.toServer) + multiset(r.toClient)
  {
    assert (q.pending + [p])[..|q.pending|] == q.pending;
    assert multiset(q.pending + [p]) == multiset(q.pending) + multiset{p};
    AddToBoth(multiset(q.pending), multiset(q.out), multiset(q.toServer), multiset(q.toClient), multiset{p});
    if p.destination == c.target {
      assert multiset(q.toServer + [p]) == multiset(q.toServer) + multiset{p};
    } else {
      assert multiset(q.toClient + [p]) == multiset(q.toClient) + multiset{p};
    }
  }

  /** A packet that is scheduled no earlier than its direction allows joins the queue in order. */
  lemma AcceptKeeps(c: Config, q: Queue, p: Packet)
    requires QueueOk(c, q) && p.order == q.nextOrder && |p.payload| <= MAX_DATAGRAM_BYTES
    requires p.due >= if p.destination == c.target then q.nextClientSend else q.nextServerSend
    requires |q.pending| < MAX_PENDING_PACKETS && q.pendingBytes + |p.payload| <= MAX_PENDING_BYTES
    ensures QueueOk(c, Accept(c, q, p))
  {
    AcceptCounts(c, q, p);
    if |q.toServer| + |q.toClient| < U64_MAX {
      AcceptInOrder(c, q, p);
    }
    if p.destination == c.target {
      SpacedPush(c.rateMbit, q.toServer, q.nextClientSend, p);
    } else {
      SpacedPush(c.rateMbit, q.toClient, q.nextServerSend, p);
    }
  }

  /** Forwarding the next due packet, out of the middle of an unordered vector, keeps both directions in order. */
  lemma ForwardKeeps(c: Config, q: Queue, now: nat, i: nat)
    requires QueueOk(c, q) && IsNextDue(q.pending, now, i)
    ensures QueueOk(c, Forward(q, i)) && |Forward(q, i).pending| == |q.pending| - 1
  {
    if |q.toServer| + |q.toClient| <= U64_MAX {
      InOrderPop(c.target, q.toServer, q.toClient, q.pending, q.out, q.nextOrder, now, i);
    }
    SwapRemoveMoves(q.pending, i);
    SwapRemoveBytes(q.pending, i);
  }

  ghost predicate NoneDue(packets: seq<Packet>, now: nat) {
    forall p :: p in packets ==> p.due > now
  }

  /** The k-th packet was due at the k-th reading of the clock. */
  ghost predicate SentWhenDue(sent: seq<Packet>, clock: nat -> nat) {
    forall k :: 0 <= k < |sent| ==> sent[k].due <= clock(k)
  }

  lemma SentWhenDuePush(sent: seq<Packet>, clock: nat -> nat, p: Packet)
    requires SentWhenDue(sent, clock) && p.due <= clock(|sent|)
    ensures SentWhenDue(sent + [p], clock)
  {}

  /** The draw loses the datagram. */
  predicate Lossy(c: Config, lossDraw: nat) { c.lossPercent != 0 && lossDraw % 100 < c.lossPercent }

  function LossyDraws(c: Config, n: nat): set<nat> { set d: nat | d < n && Lossy(c, d) }

  /** Of a hundred consecutive draws exactly the configured percentage is lost, and draws repeat every hundred. */
  lemma LossIsProportional(c: Config, draw: nat)
    ensures |LossyDraws(c, 100)| == Min(c.lossPercent, 100)
    ensures Lossy(c, draw) <==> draw % 100 in LossyDraws(c, 100)
  {
    LossyBelow(c, 100);
  }

  lemma {:induction false} LossyBelow(c: Config, n: nat)
    requires n <= 100
    ensures |LossyDraws(c, n)| == Min(c.lossPercent, n)
  {
    if n == 0 {
      assert LossyDraws(c, 0) == {};
    } else {
      LossyBelow(c, n - 1);
      assert LossyDraws(c, n) == LossyDraws(c, n - 1) + if Lossy(c, n - 1) then {n - 1} else {};
    }
  }

  class UdpProxy {
    const config: Config
    var client: Option<nat>
    var pending: seq<Packet>
    var pendingBytes: nat
    var nextClientSend: nat
    var nextServerSend: nat
    var nextOrder: nat
    var stats: Stats

    ghost var toServer: seq<Packet>
    ghost var toClient: seq<Packet>
    ghost var out: seq<Packet>
    ghost var tally: Tally

    ghost function State(): Queue
      reads this
    {
      Queue(pending, pendingBytes, nextClientSend, nextServerSend, nextOrder, toServer, toClient, out)
    }

    /** Every datagram received is lost, dropped, forwarded or waiting, and the counters say so. */
    ghost predicate Valid()
      reads this
    {
      && QueueOk(config, State())
      && (client.Some? ==> client.value != config.target)
      && tally.received == tally.lost + tally.dropped + |out| + |pending|
      && Reported(stats, tally, out)
    }

    constructor (config: Config, now: nat)
      ensures Valid() && this.config == config && client == None
      ensures State() == Queue([], 0, now, now, 0, [], [], []) && tally == Tally(0, 0, 0, 0, 0)
    {
      this.config := config;
      client, pending, pendingBytes, nextOrder := None, [], 0, 0;
      nextClientSend, nextServerSend := now, now;
      stats := Stats(0, 0, 0, 0, 0, 0, 0);
      toServer, toClient, out, tally := [], [], [], Tally(0, 0, 0, 0, 0);
    }

    /** A reply that comes before any client is known. */
    ghost predicate TooEarly(peer: nat)
      reads this
    {
      peer == config.target && client.None?
    }

    /** The queue has no place for the datagram. */
    ghost predicate Full(payload: seq<byte>)
      reads this
    {
      |pending| >= MAX_PENDING_PACKETS || pendingBytes + |payload| > MAX_PENDING_BYTES
    }

    /** Whether `queue_proxy_datagram` gives a datagram a place in the queue. */
    ghost predicate Admits(peer: nat, payload: seq<byte>, lossDraw: nat)
      reads this
    {
      !TooEarly(peer) && !Lossy(config, lossDraw) && !Full(payload)
    }

    /** The first half of `queue_proxy_datagram`: address, counters, loss and queue bounds. */
    method Receive(peer: nat, payload: seq<byte>, lossDraw: nat) returns (destination: Option<nat>)
      requires Reported(stats, tally, out) && (client.Some? ==> client.value != config.target)
      modifies this`client, this`stats, this`tally
      ensures Reported(stats, tally, out) && (client.Some? ==> client.value != config.target)
      ensures client == if peer == config.target then old(client) else Some(peer)
      ensures destination.Some? <==> old(Admits(peer, payload, lossDraw))
      ensures destination.Some? ==>
                && client.Some?
                && destination.value == if peer == config.target then client.value else config.target
      ensures tally.received - tally.lost - tally.dropped
           == old(tally.received - tally.lost - tally.dropped) + if destination.Some? then 1 else 0
      ensures tally.received + tally.early == old(tally.received + tally.early) + 1
      ensures tally.early == old(tally.early) + if old(TooEarly(peer)) then 1 else 0
      ensures tally.lost == old(tally.lost) + if !old(TooEarly(peer)) && Lossy(config, lossDraw) then 1 else 0
      ensures tally.dropped > old(tally.dropped) ==> Full(payload)
    {
      if peer == config.target {
        if client.None? {
          stats := stats.(repliesBeforeClient := SatAdd(stats.repliesBeforeClient, 1));
          tally := tally.(early := tally.early + 1);
          return None;
        }
        destination := client;
      } else {
        client := Some(peer);
        destination := Some(config.target);
      }
      stats := stats.(receivedPackets := SatAdd(stats.receivedPackets, 1),
                      receivedBytes := SatAdd(stats.receivedBytes, |payload|));
      tally := tally.(received := tally.received + 1, receivedBytes := tally.receivedBytes + |payload|);
      if Lossy(config, lossDraw) {
        stats := stats.(lostPackets := SatAdd(stats.lostPackets, 1));
        tally := tally.(lost := tally.lost + 1);
        return None;
      }
      if |pending| >= MAX_PENDING_PACKETS || pendingBytes + |payload| > MAX_PENDING_BYTES {
        stats := stats.(queueDroppedPackets := SatAdd(stats.queueDroppedPackets, 1));
        tally := tally.(dropped := tally.dropped + 1);
        return None;
      }
    }

    /** The second half: give the datagram its due time and append it. */
    method Schedule(destination: nat, payload: seq<byte>, now: nat, draw: nat) returns (p: Packet)
      modifies this`pending, this`pendingBytes, this`nextClientSend, this`nextServerSend, this`nextOrder
      modifies this`toServer, this`toClient
      ensures p == Packet(p.due, old(nextOrder), destination, payload)
      ensures p.due == Max(if destination == config.target then old(nextClientSend) else old(nextServerSend),
                           DelayedArrival(config.delayMs, config.jitterMs, now, draw))
      ensures State() == Accept(config, old(State()), p)
    {
      var toTarget := destination == config.target;
      var due, next := ShapedDue(now, config.delayMs, config.jitterMs, config.rateMbit, |payload|,
                                 if toTarget then nextClientSend else nextServerSend, draw);
      p := Packet(due, nextOrder, destination, payload);
      nextOrder := if nextOrder == U64_MAX then 0 else nextOrder + 1;
      pending, pendingBytes := pending + [p], pendingBytes + |payload|;
      if toTarget {
        toServer, nextClientSend := toServer + [p], next;
      } else {
        toClient, nextServerSend := toClient + [p], next;
      }
    }

    /** `queue_proxy_datagram`. */
    method QueueDatagram(peer: nat, payload: seq<byte>, now: nat, lossDraw: nat, jitterDraw: nat)
      returns (p: Option<Packet>)
      requires Valid() && |payload| <= MAX_DATAGRAM_BYTES
      modifies this
      ensures Valid()
      ensures client == if peer == config.target then old(client) else Some(peer)
      ensures p.Some? <==> old(Admits(peer, payload, lossDraw))
      ensures p.None? ==> State() == old(State())
      ensures tally.received + tally.early == old(tally.received + tally.early) + 1
      ensures tally.early == old(tally.early) + if old(TooEarly(peer)) then 1 else 0
      ensures tally.lost == old(tally.lost) + if !old(TooEarly(peer)) && Lossy(config, lossDraw) then 1 else 0
      ensures tally.dropped > old(tally.dropped) ==> old(Full(payload))
      ensures p.Some? ==>
                && State() == Accept(config, old(State()), p.value) && p.value.payload == payload && p.value.due >= now
                && client.Some?
                && p.value.destination == (if peer == config.target then client.value else config.target)
                && p.value.due == Max(if peer == config.target then old(nextServerSend) else old(nextClientSend),
                                      DelayedArrival(config.delayMs, config.jitterMs, now, jitterDraw))
    {
      var destination := Receive(peer, payload, lossDraw);
      if destination.None? {
        return None;
      }
      ghost var before := State();
      var scheduled := Schedule(destination.value, payload, now, jitterDraw);
      AcceptKeeps(config, before, scheduled);
      return Some(scheduled);
    }

    /** Forward one due packet, if there is one. */
    method FlushOne(now: nat) returns (sent: Option<Packet>)
      requires Valid()
      modifies this
      ensures Valid() && client == old(client) && toServer == old(toServer) && toClient == old(toClient)
      ensures nextClientSend == old(nextClientSend) && nextServerSend == old(nextServerSend)
      ensures tally == old(tally)
      ensures sent.None? ==> State() == old(State()) && NoneDue(pending, now)
      ensures sent.Some? ==> sent.value.due <= now && out == old(out) + [sent.value] && |pending| < |old(pending)|
      ensures pendingBytes <= old(pendingBytes)
    {
      var next := FindDue(pending, now);
      if next.None? {
        return None;
      }
      var i := next.value;
      var packet := pending[i];
      ForwardKeeps(config, State(), now, i);
      assert (out + [packet])[..|out|] == out;
      pending := SwapRemove(pending, i);
      pendingBytes := SatSub(pendingBytes, |packet.payload|);
      out := out + [packet];
      stats := stats.(forwardedPackets := SatAdd(stats.forwardedPackets, 1),
                      forwardedBytes := SatAdd(stats.forwardedBytes, |packet.payload|));
      assert State() == Forward(old(State()), i);
      return Some(packet);
    }

    /** `flush_due_packets`: `clock(k)` is the instant read before the k-th packet. */
    method FlushDue(clock: nat -> nat) returns (sent: seq<Packet>)
      requires Valid()
      modifies this
      ensures Valid() && client == old(client) && toServer == old(toServer) && toClient == old(toClient)
      ensures nextClientSend == old(nextClientSend) && nextServerSend == old(nextServerSend)
      ensures tally == old(tally) && out == old(out) + sent
      ensures SentWhenDue(sent, clock) && NoneDue(pending, clock(|sent|)) && pendingBytes <= old(pendingBytes)
    {
      sent := [];
      while true
        invariant Valid() && client == old(client) && toServer == old(toServer) && toClient == old(toClient)
        invariant tally == old(tally) && out == old(out) + sent && SentWhenDue(sent, clock)
        invariant pendingBytes <= old(pendingBytes)
        invariant nextClientSend == old(nextClientSend) && nextServerSend == old(nextServerSend)
        decreases |pending|
      {
        var next := FlushOne(clock(|sent|));
        if next.None? {
          return;
        }
        SentWhenDuePush(sent, clock, next.value);
        assert old(out) + sent + [next.value] == old(out) + (sent + [next.value]);
        sent := sent + [next.value];
      }
    }
  }

  // ---------- whole runs ----------

  datatype Op =
    | Arrive(peer: nat, payload: seq<byte>, now: nat, lossDraw: nat, jitterDraw: nat)
    | Flush(clock: nat -> nat)

  function Arrivals(ops: seq<Op>): nat {
    if ops == [] then 0 else Arrivals(ops[..|ops| - 1]) + if ops[|ops| - 1].Arrive? then 1 else 0
  }

  /** Between any two due times of a direction, the scheduled bits fit into the elapsed time at the rate. */
  ghost predicate WithinRate(rateMbit: nat, accepted: seq<Packet>) {
    forall i: nat, j: nat :: i <= j < |accepted| ==>
      && accepted[i].due <= accepted[j].due
      && BytesBetween(accepted, i, j) * 8 * NANOS_PER_SECOND
         <= BitsPerSecond(rateMbit) * (accepted[j].due - accepted[i].due)
  }

  lemma SpacedIsWithinRate(rateMbit: nat, accepted: seq<Packet>, nextSend: nat)
    requires rateMbit > 0 && Spaced(rateMbit, accepted, nextSend)
    ensures WithinRate(rateMbit, accepted)
  {
    forall i: nat, j: nat | i <= j < |accepted|
      ensures accepted[i].due <= accepted[j].due
      ensures BytesBetween(accepted, i, j) * 8 * NANOS_PER_SECOND
              <= BitsPerSecond(rateMbit) * (accepted[j].due - accepted[i].due)
    {
      RateIsNeverExceeded(rateMbit, accepted, nextSend, i, j);
    }
  }

  /** Some client has been heard. */
  predicate ClientKnown(target: nat, ops: seq<Op>) {
    exists i :: 0 <= i < |ops| && ops[i].Arrive? && ops[i].peer != target
  }

  /** Replies that arrive before any client has been heard. */
  function EarlyCount(target: nat, ops: seq<Op>): nat {
    if ops == [] then 0
    else
      var front, op := ops[..|ops| - 1], ops[|ops| - 1];
      EarlyCount(target, front) + if op.Arrive? && op.peer == target && !ClientKnown(target, front) then 1 else 0
  }

  /** Other arrivals whose draw loses them. */
  function LostCount(c: Config, ops: seq<Op>): nat {
    if ops == [] then 0
    else
      var front, op := ops[..|ops| - 1], ops[|ops| - 1];
      LostCount(c, front)
      + if op.Arrive? && (op.peer != c.target || ClientKnown(c.target, front)) && Lossy(c, op.lossDraw) then 1 else 0
  }

  function ArrivedBytes(ops: seq<Op>): nat {
    if ops == [] then 0
    else ArrivedBytes(ops[..|ops| - 1]) + if ops[|ops| - 1].Arrive? then |ops[|ops| - 1].payload| else 0
  }

  /** The packet carries the arrival's bytes across, and not before the arrival. */
  predicate Carries(target: nat, toServer: bool, op: Op, p: Packet) {
    && op.Arrive? && (op.peer != target <==> toServer) && Toward(target, toServer, p)
    && p.payload == op.payload && p.due >= op.now
  }

  /** The packets of a direction are the arrivals at the indices `from`, in the order of their arrival. */
  predicate InArrivalOrder(target: nat, toServer: bool, ops: seq<Op>, from: seq<nat>, packets: seq<Packet>) {
    && |from| == |packets|
    && (forall i, j :: 0 <= i < j < |from| ==> from[i] < from[j])
    && (forall k :: 0 <= k < |from| ==> from[k] < |ops| && Carries(target, toServer, ops[from[k]], packets[k]))
  }

  /** When a direction is free again after its first `n` packets. */
  function FreeAt(rateMbit: nat, start: nat, packets: seq<Packet>, n: nat): nat
    requires n <= |packets|
  {
    if n == 0 then start else WireEnd(rateMbit, packets[n - 1])
  }

  /** The packet is due when its delay is over or its predecessor is through, whichever is later; no later. */
  predicate TimedAt(c: Config, start: nat, ops: seq<Op>, from: seq<nat>, packets: seq<Packet>, k: nat)
    requires k < |from| == |packets|
  {
    && from[k] < |ops| && ops[from[k]].Arrive?
    && packets[k].due == Max(FreeAt(c.rateMbit, start, packets, k), Delayed(c, ops[from[k]]))
  }

  predicate Timed(c: Config, start: nat, ops: seq<Op>, from: seq<nat>, packets: seq<Packet>) {
    |from| == |packets| && forall k :: 0 <= k < |from| ==> TimedAt(c, start, ops, from, packets, k)
  }

  function Delayed(c: Config, op: Op): nat
    requires op.Arrive?
  {
    DelayedArrival(c.delayMs, c.jitterMs, op.now, op.jitterDraw)
  }

  /** Times do not depend on later operations or packets. */
  lemma TimedAtLater(c: Config, start: nat, ops: seq<Op>, i: nat, from: seq<nat>, packets: seq<Packet>, k: nat,
                     index: seq<nat>, added: seq<Packet>)
    requires i < |ops| && k < |from| == |packets| && |index| == |added|
    requires TimedAt(c, start, ops[..i], from, packets, k)
    ensures TimedAt(c, start, ops[..i + 1], from + index, packets + added, k)
  {
    assert (from + index)[k] == from[k] && (packets + added)[k] == packets[k];
    assert ops[..i][from[k]] == ops[..i + 1][from[k]];
    assert FreeAt(c.rateMbit, start, packets + added, k) == FreeAt(c.rateMbit, start, packets, k);
  }

  lemma TimedAtNew(c: Config, start: nat, ops: seq<Op>, i: nat, from: seq<nat>, packets: seq<Packet>, p: Packet)
    requires i < |ops| && |from| == |packets| && ops[i].Arrive?
    requires p.due == Max(FreeAt(c.rateMbit, start, packets, |packets|), Delayed(c, ops[i]))
    ensures TimedAt(c, start, ops[..i + 1], from + [i], packets + [p], |from|)
  {
    assert FreeAt(c.rateMbit, start, packets + [p], |from|) == FreeAt(c.rateMbit, start, packets, |packets|);
  }

  lemma TimedNext(c: Config, start: nat, ops: seq<Op>, i: nat, from: seq<nat>, packets: seq<Packet>,
                  added: Option<Packet>)
    requires i < |ops| && Timed(c, start, ops[..i], from, packets)
    requires added.Some? ==>
               && ops[i].Arrive?
               && added.value.due == Max(FreeAt(c.rateMbit, start, packets, |packets|), Delayed(c, ops[i]))
    ensures Timed(c, start, ops[..i + 1], from + Indexed(added, i), packets + Listed(added))
  {
    var ops', from', packets' := ops[..i + 1], from + Indexed(added, i), packets + Listed(added);
    forall k | 0 <= k < |from'| ensures TimedAt(c, start, ops', from', packets', k) {
      if k < |from| {
        TimedAtLater(c, start, ops, i, from, packets, k, Indexed(added, i), Listed(added));
      } else {
        TimedAtNew(c, start, ops, i, from, packets, added.value);
      }
    }
  }

  lemma InArrivalOrderNext(target: nat, toServer: bool, ops: seq<Op>, i: nat, from: seq<nat>, packets: seq<Packet>,
                           added: Option<Packet>)
    requires i < |ops| && InArrivalOrder(target, toServer, ops[..i], from, packets)
    requires added.Some? ==> Carries(target, toServer, ops[i], added.value)
    ensures InArrivalOrder(target, toServer, ops[..i + 1], from + Indexed(added, i), packets + Listed(added))
  {
    assert forall k :: 0 <= k < i ==> ops[..i][k] == ops[..i + 1][k];
  }

  /** An arrival, with the packet it was given for each direction. */
  method Receive(proxy: UdpProxy, op: Op) returns (toServer: Option<Packet>, toClient: Option<Packet>)
    requires proxy.Valid() && op.Arrive? && |op.payload| <= MAX_DATAGRAM_BYTES
    modifies proxy
    ensures proxy.Valid() && proxy.out == old(proxy.out)
    ensures proxy.client.Some? <==> old(proxy.client).Some? || op.peer != proxy.config.target
    ensures proxy.toServer == old(proxy.toServer) + Listed(toServer)
    ensures proxy.toClient == old(proxy.toClient) + Listed(toClient)
    ensures toServer.Some? ==> Carries(proxy.config.target, true, op, toServer.value)
    ensures toClient.Some? ==> Carries(proxy.config.target, false, op, toClient.value)
    ensures toServer.Some? ==> toServer.value.due == Max(old(proxy.nextClientSend), Delayed(proxy.config, op))
    ensures toClient.Some? ==> toClient.value.due == Max(old(proxy.nextServerSend), Delayed(proxy.config, op))
    ensures proxy.nextClientSend
         == if toServer.Some? then WireEnd(proxy.config.rateMbit, toServer.value) else old(proxy.nextClientSend)
    ensures proxy.nextServerSend
         == if toClient.Some? then WireEnd(proxy.config.rateMbit, toClient.value) else old(proxy.nextServerSend)
    ensures proxy.tally.received + proxy.tally.early == old(proxy.tally.received + proxy.tally.early) + 1
    ensures proxy.tally.early == old(proxy.tally.early) + if old(proxy.TooEarly(op.peer)) then 1 else 0
    ensures proxy.tally.lost
         == old(proxy.tally.lost) + if !old(proxy.TooEarly(op.peer)) && Lossy(proxy.config, op.lossDraw) then 1 else 0
    ensures proxy.pendingBytes <= old(proxy.pendingBytes) + |op.payload|
    ensures proxy.tally.dropped > old(proxy.tally.dropped) ==> old(proxy.Full(op.payload))
  {
    var p := proxy.QueueDatagram(op.peer, op.payload, op.now, op.lossDraw, op.jitterDraw);
    toServer := if p.Some? && p.value.destination == proxy.config.target then p else None;
    toClient := if p.Some? && p.value.destination != proxy.config.target then p else None;
  }

  function Listed(p: Option<Packet>): seq<Packet> { if p.Some? then [p.value] else [] }

  function Indexed(p: Option<Packet>, i: nat): seq<nat> { if p.Some? then [i] else [] }

  /** What the invariant says about the packets of a queue. */
  lemma QueueFacts(c: Config, q: Queue)
    requires QueueOk(c, q)
    ensures |q.toServer| + |q.toClient| <= U64_MAX ==>
              Lane(c.target, true, q.out) <= q.toServer && Lane(c.target, false, q.out) <= q.toClient
    ensures c.rateMbit > 0 ==> WithinRate(c.rateMbit, q.toServer) && WithinRate(c.rateMbit, q.toClient)
  {
    if c.rateMbit > 0 {
      SpacedIsWithinRate(c.rateMbit, q.toServer, q.nextClientSend);
      SpacedIsWithinRate(c.rateMbit, q.toClient, q.nextServerSend);
    }
  }

  /** What a run accepted in each direction, from which arrivals, and what it sent. */
  datatype Trace = Trace(
    toServer: seq<Packet>, toClient: seq<Packet>, fromClient: seq<nat>, fromServer: seq<nat>, sent: seq<Packet>)

  /** More has arrived than the queue can ever hold. */
  predicate Overload(ops: seq<Op>) {
    Arrivals(ops) > MAX_PENDING_PACKETS || ArrivedBytes(ops) > MAX_PENDING_BYTES
  }

  /** The trace is what the proxy did with these operations. */
  ghost predicate Follows(proxy: UdpProxy, ops: seq<Op>, t: Trace)
    reads proxy
  {
    && proxy.toServer == t.toServer && proxy.toClient == t.toClient && proxy.out == t.sent
    && InArrivalOrder(proxy.config.target, true, ops, t.fromClient, t.toServer)
    && InArrivalOrder(proxy.config.target, false, ops, t.fromServer, t.toClient)
  }

  /** Both directions are timed, and free again right behind their last packet. */
  predicate Paced(c: Config, start: nat, ops: seq<Op>, t: Trace, nextClientSend: nat, nextServerSend: nat) {
    && Timed(c, start, ops, t.fromClient, t.toServer) && Timed(c, start, ops, t.fromServer, t.toClient)
    && nextClientSend == FreeAt(c.rateMbit, start, t.toServer, |t.toServer|)
    && nextServerSend == FreeAt(c.rateMbit, start, t.toClient, |t.toClient|)
  }

  /** The trace with the packets that operation `i` added. */
  function Traced(t: Trace, i: nat, one: Option<Packet>, other: Option<Packet>): Trace {
    t.(toServer := t.toServer + Listed(one), toClient := t.toClient + Listed(other),
       fromClient := t.fromClient + Indexed(one, i), fromServer := t.fromServer + Indexed(other, i))
  }

  lemma TracedNothing(t: Trace, i: nat)
    ensures Traced(t, i, None, None) == t
  {
    assert t.toServer + [] == t.toServer && t.toClient + [] == t.toClient;
    assert t.fromClient + [] == t.fromClient && t.fromServer + [] == t.fromServer;
  }

  lemma TracedInOrder(c: Config, ops: seq<Op>, i: nat, t: Trace, one: Option<Packet>, other: Option<Packet>)
    requires i < |ops|
    requires InArrivalOrder(c.target, true, ops[..i], t.fromClient, t.toServer)
    requires InArrivalOrder(c.target, false, ops[..i], t.fromServer, t.toClient)
    requires one.Some? ==> Carries(c.target, true, ops[i], one.value)
    requires other.Some? ==> Carries(c.target, false, ops[i], other.value)
    ensures var t' := Traced(t, i, one, other);
            && InArrivalOrder(c.target, true, ops[..i + 1], t'.fromClient, t'.toServer)
            && InArrivalOrder(c.target, false, ops[..i + 1], t'.fromServer, t'.toClient)
  {
    InArrivalOrderNext(c.target, true, ops, i, t.fromClient, t.toServer, one);
    InArrivalOrderNext(c.target, false, ops, i, t.fromServer, t.toClient, other);
  }

  lemma TracedPaced(c: Config, start: nat, ops: seq<Op>, i: nat, t: Trace, client: nat, server: nat,
                    one: Option<Packet>, other: Option<Packet>)
    requires i < |ops| && Paced(c, start, ops[..i], t, client, server)
    requires one.Some? || other.Some? ==> ops[i].Arrive?
    requires one.Some? ==> one.value.due == Max(client, Delayed(c, ops[i]))
    requires other.Some? ==> other.value.due == Max(server, Delayed(c, ops[i]))
    ensures Paced(c, start, ops[..i + 1], Traced(t, i, one, other),
                  if one.Some? then WireEnd(c.rateMbit, one.value) else client,
                  if other.Some? then WireEnd(c.rateMbit, other.value) else server)
  {
    TimedNext(c, start, ops, i, t.fromClient, t.toServer, one);
    TimedNext(c, start, ops, i, t.fromServer, t.toClient, other);
    assert t.toServer + [] == t.toServer && t.toClient + [] == t.toClient;
  }

  /** The true counters are those of the operations. */
  predicate CountsFor(c: Config, ops: seq<Op>, known: bool, tally: Tally, pendingBytes: nat) {
    && (known <==> ClientKnown(c.target, ops))
    && tally.received + tally.early == Arrivals(ops)
    && tally.early == EarlyCount(c.target, ops)
    && tally.lost == LostCount(c, ops)
    && pendingBytes <= ArrivedBytes(ops)
    && (tally.dropped > 0 ==> Overload(ops))
  }

  ghost predicate Counts(proxy: UdpProxy, ops: seq<Op>)
    reads proxy
  {
    CountsFor(proxy.config, ops, proxy.client.Some?, proxy.tally, proxy.pendingBytes)
  }

  lemma ClientKnownNext(target: nat, ops: seq<Op>, i: nat)
    requires i < |ops|
    ensures ClientKnown(target, ops[..i + 1]) <==>
              ClientKnown(target, ops[..i]) || (ops[i].Arrive? && ops[i].peer != target)
  {
    assert forall k :: 0 <= k < i ==> ops[..i][k] == ops[..i + 1][k];
    assert ops[..i + 1][i] == ops[i];
  }

  /** One more operation on the right-hand sides of the counters. */
  lemma CountersNext(c: Config, ops: seq<Op>, i: nat)
    requires i < |ops|
    ensures var op, known := ops[i], ClientKnown(c.target, ops[..i]);
            && Arrivals(ops[..i + 1]) == Arrivals(ops[..i]) + (if op.Arrive? then 1 else 0)
            && ArrivedBytes(ops[..i + 1]) == ArrivedBytes(ops[..i]) + (if op.Arrive? then |op.payload| else 0)
            && EarlyCount(c.target, ops[..i + 1])
               == EarlyCount(c.target, ops[..i]) + (if op.Arrive? && op.peer == c.target && !known then 1 else 0)
            && LostCount(c, ops[..i + 1])
               == LostCount(c, ops[..i])
                  + if op.Arrive? && (op.peer != c.target || known) && Lossy(c, op.lossDraw) then 1 else 0
  {
    assert ops[..i + 1][..i] == ops[..i] && ops[..i + 1][i] == ops[i];
  }

  lemma CountsArrival(c: Config, ops: seq<Op>, i: nat, known: bool, t: Tally, bytes: nat, t': Tally, bytes': nat)
    requires i < |ops| && ops[i].Arrive? && CountsFor(c, ops[..i], known, t, bytes)
    requires t'.received + t'.early == t.received + t.early + 1
    requires t'.early == t.early + if ops[i].peer == c.target && !known then 1 else 0
    requires t'.lost == t.lost + if !(ops[i].peer == c.target && !known) && Lossy(c, ops[i].lossDraw) then 1 else 0
    requires bytes' <= bytes + |ops[i].payload|
    requires t'.dropped > 0 ==> Overload(ops[..i]) || Overload(ops[..i + 1])
    ensures CountsFor(c, ops[..i + 1], known || ops[i].peer != c.target, t', bytes')
  {
    ClientKnownNext(c.target, ops, i);
    CountersNext(c, ops, i);
  }

  lemma CountsFlush(c: Config, ops: seq<Op>, i: nat, known: bool, t: Tally, bytes: nat, bytes': nat)
    requires i < |ops| && ops[i].Flush? && CountsFor(c, ops[..i], known, t, bytes) && bytes' <= bytes
    ensures CountsFor(c, ops[..i + 1], known, t, bytes')
  {
    ClientKnownNext(c.target, ops, i);
    CountersNext(c, ops, i);
  }

  /** A datagram that finds the queue full has found more arrivals than fit. */
  lemma FullIsOverload(c: Config, ops: seq<Op>, i: nat, pending: nat, bytes: nat)
    requires i < |ops| && ops[i].Arrive?
    requires pending <= Arrivals(ops[..i]) && bytes <= ArrivedBytes(ops[..i])
    requires pending >= MAX_PENDING_PACKETS || bytes + |ops[i].payload| > MAX_PENDING_BYTES
    ensures Overload(ops[..i + 1])
  {
    CountersNext(c, ops, i);
  }

  /** Nothing that waits was due at the n-th reading of the clock. */
  ghost predicate ClearAt(waiting: seq<Packet>, clock: nat -> nat, n: nat) { NoneDue(waiting, clock(n)) }

  ghost predicate Clear(waiting: seq<Packet>, clock: nat -> nat) { exists n :: ClearAt(waiting, clock, n) }

  /** What holds after every operation of a run. */
  ghost predicate Playing(proxy: UdpProxy, start: nat, ops: seq<Op>, t: Trace)
    reads proxy
  {
    && proxy.Valid() && Follows(proxy, ops, t) && Counts(proxy, ops)
    && Paced(proxy.config, start, ops, t, proxy.nextClientSend, proxy.nextServerSend)
  }

  method PlayArrival(proxy: UdpProxy, ghost start: nat, ops: seq<Op>, i: nat, t: Trace) returns (t': Trace)
    requires i < |ops| && ops[i].Arrive? && |ops[i].payload| <= MAX_DATAGRAM_BYTES
    requires Playing(proxy, start, ops[..i], t)
    modifies proxy
    ensures Playing(proxy, start, ops[..i + 1], t')
  {
    ghost var c, known, tally, bytes := proxy.config, proxy.client.Some?, proxy.tally, proxy.pendingBytes;
    ghost var client, server, waiting := proxy.nextClientSend, proxy.nextServerSend, |proxy.pending|;
    var one, other := Receive(proxy, ops[i]);
    if proxy.tally.dropped > tally.dropped {
      FullIsOverload(c, ops, i, waiting, bytes);
    }
    CountsArrival(c, ops, i, known, tally, bytes, proxy.tally, proxy.pendingBytes);
    TracedInOrder(c, ops, i, t, one, other);
    TracedPaced(c, start, ops, i, t, client, server, one, other);
    t' := Traced(t, i, one, other);
  }

  method PlayFlush(proxy: UdpProxy, ghost start: nat, ops: seq<Op>, i: nat, t: Trace) returns (t': Trace)
    requires i < |ops| && ops[i].Flush?
    requires Playing(proxy, start, ops[..i], t)
    modifies proxy
    ensures Playing(proxy, start, ops[..i + 1], t')
    ensures Clear(proxy.pending, ops[i].clock)
  {
    ghost var c, bytes := proxy.config, proxy.pendingBytes;
    TracedInOrder(c, ops, i, t, None, None);
    TracedPaced(c, start, ops, i, t, proxy.nextClientSend, proxy.nextServerSend, None, None);
    TracedNothing(t, i);
    var left := proxy.FlushDue(ops[i].clock);
    CountsFlush(c, ops, i, proxy.client.Some?, proxy.tally, bytes, proxy.pendingBytes);
    assert ClearAt(proxy.pending, ops[i].clock, |left|);
    t' := t.(sent := t.sent + left);
  }

  lemma PlayingStarts(proxy: UdpProxy, start: nat)
    requires proxy.Valid() && proxy.State() == Queue([], 0, start, start, 0, [], [], [])
    requires proxy.tally == Tally(0, 0, 0, 0, 0) && proxy.client == None
    ensures Playing(proxy, start, [], Trace([], [], [], [], []))
  {}

  /** After a flush nothing that was due at its last reading of the clock is still waiting. */
  ghost predicate Flushed(ops: seq<Op>, waiting: seq<Packet>) {
    ops != [] && ops[|ops| - 1].Flush? ==> Clear(waiting, ops[|ops| - 1].clock)
  }

  method PlayOne(proxy: UdpProxy, ghost start: nat, ops: seq<Op>, i: nat, t: Trace) returns (t': Trace)
    requires i < |ops| && (ops[i].Arrive? ==> |ops[i].payload| <= MAX_DATAGRAM_BYTES)
    requires Playing(proxy, start, ops[..i], t)
    modifies proxy
    ensures Playing(proxy, start, ops[..i + 1], t') && Flushed(ops[..i + 1], proxy.pending)
  {
    assert ops[..i + 1][i] == ops[i];
    if ops[i].Arrive? {
      t' := PlayArrival(proxy, start, ops, i, t);
    } else {
      t' := PlayFlush(proxy, start, ops, i, t);
    }
  }

  method Play(proxy: UdpProxy, ghost start: nat, ops: seq<Op>) returns (t: Trace)
    requires proxy.Valid() && proxy.State() == Queue([], 0, start, start, 0, [], [], [])
    requires proxy.tally == Tally(0, 0, 0, 0, 0) && proxy.client == None
    requires forall i :: 0 <= i < |ops| && ops[i].Arrive? ==> |ops[i].payload| <= MAX_DATAGRAM_BYTES
    modifies proxy
    ensures Playing(proxy, start, ops, t) && Flushed(ops, proxy.pending)
  {
    t := Trace([], [], [], [], []);
    PlayingStarts(proxy, start);
    assert ops[..0] == [];
    for i := 0 to |ops|
      invariant Playing(proxy, start, ops[..i], t) && Flushed(ops[..i], proxy.pending)
    {
      t := PlayOne(proxy, start, ops, i, t);
    }
    assert ops[..|ops|] == ops;
  }

  /**
   * Every run of the shaper, whatever arrives when and whatever is drawn.  The accepted packets of a
   * direction are arrivals of that direction in the order of their arrival, each due as soon as its delay is
   * over and its predecessor's bits are through; what has left is a beginning of
   * them; the bits scheduled between two due times keep to the rate; what was accepted has left or is
   * waiting; and every arrival is accounted for, with nothing dropped unless more arrived than fits.
   */
  method Drive(config: Config, start: nat, ops: seq<Op>) returns (t: Trace, waiting: seq<Packet>, stats: Stats)
    requires forall i :: 0 <= i < |ops| && ops[i].Arrive? ==> |ops[i].payload| <= MAX_DATAGRAM_BYTES
    ensures InArrivalOrder(config.target, true, ops, t.fromClient, t.toServer)
    ensures InArrivalOrder(config.target, false, ops, t.fromServer, t.toClient)
    ensures Timed(config, start, ops, t.fromClient, t.toServer) && Timed(config, start, ops, t.fromServer, t.toClient)
    ensures |t.toServer| + |t.toClient| <= U64_MAX ==>
              Lane(config.target, true, t.sent) <= t.toServer && Lane(config.target, false, t.sent) <= t.toClient
    ensures config.rateMbit > 0 ==> WithinRate(config.rateMbit, t.toServer) && WithinRate(config.rateMbit, t.toClient)
    ensures multiset(t.sent) + multiset(waiting) == multiset(t.toServer) + multiset(t.toClient)
    ensures |waiting| <= MAX_PENDING_PACKETS && TotalBytes(waiting) <= MAX_PENDING_BYTES && Flushed(ops, waiting)
    ensures Arrivals(ops) <= U64_MAX ==>
              && stats.repliesBeforeClient == EarlyCount(config.target, ops)
              && stats.lostPackets == LostCount(config, ops)
              && stats.repliesBeforeClient + stats.lostPackets + stats.queueDroppedPackets + |t.sent| + |waiting|
                 == Arrivals(ops)
              && (stats.queueDroppedPackets > 0 ==> Overload(ops))
  {
    var proxy := new UdpProxy(config, start);
    t := Play(proxy, start, ops);
    waiting, stats := proxy.pending, proxy.stats;
    QueueFacts(config, proxy.State());
  }
}
