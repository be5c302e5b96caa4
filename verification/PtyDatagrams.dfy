/**
 * The three prefixed PTY datagrams: rich state (`PR`), compressed rich state (`PZ`) and row deltas
 * (`PD`).  The Postcard serializer is a parameter.
 */
module PtyDatagrams {
  import opened Base
  import opened Frames
  import PtyScreen

  const RICH_MAGIC: seq<byte> := [0x50, 0x52]
  const COMPRESSED_MAGIC: seq<byte> := [0x50, 0x5A]
  const DELTA_MAGIC: seq<byte> := [0x50, 0x44]
  const MAX_DECODED_BYTES: nat := 8 * 1024 * 1024
  const DELTA_MAX_ROWS: nat := 4096
  const COMPRESSION_MIN_BYTES: nat := 1024

  datatype Rich = Rich(
    session: nat, generation: nat, rows: nat, cols: nat, screen: seq<byte>, cursorRow: nat, cursorCol: nat)

  datatype DatagramError = BadDatagram

  /** Postcard for one message type. */
  datatype Postcard<!T> = Postcard(encode: T -> seq<byte>, decode: seq<byte> -> Option<T>)

  predicate StartsWith(payload: seq<byte>, magic: seq<byte>) {
    |magic| <= |payload| && payload[..|magic|] == magic
  }

  // ---------- rich state ----------

  /** The `PZ` form, where it is allowed, really compressed, shorter than the plain form, and within the budget. */
  function CompressedForm(z: Zlib, encoded: seq<byte>, attempt: bool, maxSize: nat, allow: bool): Option<seq<byte>> {
    if !allow || |encoded| < COMPRESSION_MIN_BYTES then None
    else
      var framed := EncodeFrame(z, encoded, attempt);
      if framed.Err? || |framed.value| < FRAME_HEADER_BYTES || framed.value[2] != ENCODING_ZLIB then None
      else if 2 + |framed.value| < 2 + |encoded| && 2 + |framed.value| <= maxSize
      then Some(COMPRESSED_MAGIC + framed.value)
      else None
  }

  /** `encode_pty_rich_datagram`. */
  function EncodeRich(pc: Postcard<Rich>, z: Zlib, d: Rich, attempt: bool, maxSize: nat, allow: bool)
    : Option<seq<byte>>
  {
    var encoded := pc.encode(d);
    if |encoded| > MAX_DECODED_BYTES then None
    else
      var compressed := CompressedForm(z, encoded, attempt, maxSize, allow);
      if compressed.Some? then compressed
      else if 2 + |encoded| > maxSize then None
      else Some(RICH_MAGIC + encoded)
  }

  /** The bounded sequence visitor in front of the screen bytes. */
  function DecodeBoundedRich(pc: Postcard<Rich>, body: seq<byte>): Result<Option<Rich>, DatagramError> {
    match pc.decode(body)
    case Some(d) => if |d.screen| <= MAX_DECODED_BYTES then Ok(Some(d)) else Err(BadDatagram)
    case None => Err(BadDatagram)
  }

  /** `decode_pty_rich_datagram`: unknown prefixes are left to other decoders, recognized ones fail closed. */
  function DecodeRich(pc: Postcard<Rich>, z: Zlib, payload: seq<byte>, allow: bool)
    : Result<Option<Rich>, DatagramError>
  {
    if StartsWith(payload, RICH_MAGIC) then
      if |payload| - 2 > MAX_DECODED_BYTES then Err(BadDatagram) else DecodeBoundedRich(pc, payload[2..])
    else if StartsWith(payload, COMPRESSED_MAGIC) then
      if !allow then Ok(None)
      else
        var frame := payload[2..];
        var length := FrameDecodedLen(frame[..Min(|frame|, FRAME_HEADER_BYTES)]);
        if length.Err? || length.value > MAX_DECODED_BYTES then Err(BadDatagram)
        else
          var decoded := DecodeFrame(z, frame);
          if decoded.Err? then Err(BadDatagram) else DecodeBoundedRich(pc, decoded.value)
    else Ok(None)
  }

  predicate Serializes<T(==)>(pc: Postcard<T>, d: T) { pc.decode(pc.encode(d)) == Some(d) }

  /** A rich datagram that could be encoded fits the budget and decodes to itself. */
  lemma RichRoundTrip(pc: Postcard<Rich>, z: Zlib, d: Rich, attempt: bool, maxSize: nat, allow: bool)
    requires Serializes(pc, d) && |d.screen| <= |pc.encode(d)| && Inverts(z, pc.encode(d))
    requires EncodeRich(pc, z, d, attempt, maxSize, allow).Some?
    ensures |EncodeRich(pc, z, d, attempt, maxSize, allow).value| <= maxSize
    ensures DecodeRich(pc, z, EncodeRich(pc, z, d, attempt, maxSize, allow).value, allow) == Ok(Some(d))
  {
    var encoded, payload := pc.encode(d), EncodeRich(pc, z, d, attempt, maxSize, allow).value;
    if CompressedForm(z, encoded, attempt, maxSize, allow).Some? {
      FrameRoundTrip(z, encoded, attempt);
      FrameSize(z, encoded, attempt);
      var frame := EncodeFrame(z, encoded, attempt).value;
      DecodedLengthIsAnnounced(z, frame);
      assert payload[..2] == COMPRESSED_MAGIC && payload[2..] == frame;
    } else {
      assert payload[..2] == RICH_MAGIC && payload[2..] == encoded;
    }
  }

  /**
   * Which form is sent, exactly: nothing when no form fits; the compressed one only if it was negotiated,
   * fits and is strictly shorter than the plain one; so what is sent is never longer than the plain form.
   */
  lemma RichFormExactly(pc: Postcard<Rich>, z: Zlib, d: Rich, attempt: bool, maxSize: nat, allow: bool)
    ensures var n, payload := |pc.encode(d)|, EncodeRich(pc, z, d, attempt, maxSize, allow);
            var wire := 2 + FRAME_HEADER_BYTES + |z.deflate(pc.encode(d))|;
            var compresses := allow && attempt && n >= COMPRESSION_MIN_BYTES && wire < 2 + n && wire <= maxSize;
            && (payload.Some? <==> n <= MAX_DECODED_BYTES && (compresses || 2 + n <= maxSize))
            && (payload.Some? ==> (StartsWith(payload.value, COMPRESSED_MAGIC) <==> compresses))
            && (payload.Some? ==> |payload.value| == if compresses then wire else 2 + n)
  {
    var encoded, payload := pc.encode(d), EncodeRich(pc, z, d, attempt, maxSize, allow);
    if |encoded| <= MAX_DECODED_BYTES {
      FrameSize(z, encoded, attempt);
      assert CompressedForm(z, encoded, attempt, maxSize, allow).Some? ==> payload.value[..2] == COMPRESSED_MAGIC;
      assert CompressedForm(z, encoded, attempt, maxSize, allow).None? && payload.Some? ==>
        payload.value[..2] == RICH_MAGIC;
    }
  }

  // ---------- row deltas ----------

  /** `encode_pty_state_delta_datagram`. */
  function EncodeDelta(pc: Postcard<PtyScreen.Delta>, d: PtyScreen.Delta, maxSize: nat): Option<seq<byte>> {
    var encoded := pc.encode(d);
    if |d.changes| > DELTA_MAX_ROWS || |encoded| > MAX_DECODED_BYTES || 2 + |encoded| > maxSize then None
    else Some(DELTA_MAGIC + encoded)
  }

  /** `decode_pty_state_delta_datagram`. */
  function DecodeDelta(pc: Postcard<PtyScreen.Delta>, payload: seq<byte>)
    : Result<Option<PtyScreen.Delta>, DatagramError>
  {
    if !StartsWith(payload, DELTA_MAGIC) then Ok(None)
    else if |payload| - 2 > MAX_DECODED_BYTES then Err(BadDatagram)
    else
      match pc.decode(payload[2..])
      case Some(d) => if |d.changes| <= DELTA_MAX_ROWS then Ok(Some(d)) else Err(BadDatagram)
      case None => Err(BadDatagram)
  }

  /** A delta is sent exactly when it is within the limits, and then decodes to itself. */
  lemma DeltaDatagramRoundTrip(pc: Postcard<PtyScreen.Delta>, d: PtyScreen.Delta, maxSize: nat)
    requires Serializes(pc, d)
    ensures EncodeDelta(pc, d, maxSize).Some? <==>
              |d.changes| <= DELTA_MAX_ROWS && |pc.encode(d)| <= MAX_DECODED_BYTES && 2 + |pc.encode(d)| <= maxSize
    ensures EncodeDelta(pc, d, maxSize).Some? ==>
              && |EncodeDelta(pc, d, maxSize).value| <= maxSize
              && DecodeDelta(pc, EncodeDelta(pc, d, maxSize).value) == Ok(Some(d))
  {
    var payload := DELTA_MAGIC + pc.encode(d);
    assert payload[..2] == DELTA_MAGIC && payload[2..] == pc.encode(d);
  }

  // ---------- plain state and the client's dispatch ----------

  datatype Plain = Plain(session: nat, screen: PtyScreen.Screen)

  const PLAIN_MAX_ROWS: nat := 4096

  /** `decode_pty_state_datagram`: no prefix of its own. */
  function DecodePlain(pc: Postcard<Plain>, payload: seq<byte>): Result<Plain, DatagramError> {
    if |payload| > MAX_DECODED_BYTES then Err(BadDatagram)
    else
      match pc.decode(payload)
      case Some(d) => if |d.screen.lines| <= PLAIN_MAX_ROWS then Ok(d) else Err(BadDatagram)
      case None => Err(BadDatagram)
  }

  /** Every plain message starts with its session id, which Postcard writes as 16 bytes behind their length. */
  const UUID_LENGTH: byte := 16

  ghost predicate LeadsWithUuid(pc: Postcard<Plain>) {
    && (forall d :: pc.encode(d) != [] && pc.encode(d)[0] == UUID_LENGTH)
    && (forall b :: pc.decode(b).Some? ==> b != [] && b[0] == UUID_LENGTH)
  }

  datatype Codecs = Codecs(delta: Postcard<PtyScreen.Delta>, rich: Postcard<Rich>, plain: Postcard<Plain>, z: Zlib)

  datatype Received = GotDelta(delta: PtyScreen.Delta) | GotRich(rich: Rich) | GotPlain(plain: Plain) | Ignored

  /** The client's order: delta if negotiated, then rich, then plain; a decoder that fails hands on. */
  function Dispatch(c: Codecs, payload: seq<byte>, deltas: bool, compression: bool): Received {
    var delta := DecodeDelta(c.delta, payload);
    if deltas && delta.Ok? && delta.value.Some? then GotDelta(delta.value.value)
    else
      var rich := DecodeRich(c.rich, c.z, payload, compression);
      if rich.Ok? && rich.value.Some? then GotRich(rich.value.value)
      else
        var plain := DecodePlain(c.plain, payload);
        if plain.Ok? then GotPlain(plain.value) else Ignored
  }

  lemma MagicsDiffer(payload: seq<byte>)
    ensures StartsWith(payload, DELTA_MAGIC) ==> !StartsWith(payload, RICH_MAGIC)
    ensures StartsWith(payload, DELTA_MAGIC) ==> !StartsWith(payload, COMPRESSED_MAGIC)
    ensures StartsWith(payload, DELTA_MAGIC) ==> payload[0] != UUID_LENGTH
    ensures StartsWith(payload, RICH_MAGIC) ==> payload[0] != UUID_LENGTH
    ensures StartsWith(payload, COMPRESSED_MAGIC) ==> payload[0] != UUID_LENGTH
  {
    if |payload| >= 2 {
      assert payload[..2][0] == payload[0] && payload[..2][1] == payload[1];
    }
  }

  /** At most one of the three decoders accepts a payload, so a datagram is never taken for another kind. */
  lemma KindsAreDisjoint(c: Codecs, payload: seq<byte>, compression: bool)
    requires LeadsWithUuid(c.plain)
    ensures DecodeDelta(c.delta, payload) != Ok(None) ==>
              DecodeRich(c.rich, c.z, payload, compression) == Ok(None) && DecodePlain(c.plain, payload).Err?
    ensures DecodeRich(c.rich, c.z, payload, compression) != Ok(None) ==>
              DecodeDelta(c.delta, payload) == Ok(None) && DecodePlain(c.plain, payload).Err?
    ensures DecodePlain(c.plain, payload).Ok? ==>
              DecodeDelta(c.delta, payload) == Ok(None) && DecodeRich(c.rich, c.z, payload, compression) == Ok(None)
  {
    MagicsDiffer(payload);
  }

  /** A delta that was sent is dispatched as itself, or ignored by a client that did not negotiate deltas. */
  lemma DeltaDispatched(c: Codecs, d: PtyScreen.Delta, maxSize: nat, deltas: bool, compression: bool)
    requires LeadsWithUuid(c.plain) && Serializes(c.delta, d) && EncodeDelta(c.delta, d, maxSize).Some?
    ensures Dispatch(c, EncodeDelta(c.delta, d, maxSize).value, deltas, compression)
         == if deltas then GotDelta(d) else Ignored
  {
    DeltaDatagramRoundTrip(c.delta, d, maxSize);
    KindsAreDisjoint(c, EncodeDelta(c.delta, d, maxSize).value, compression);
  }

  /** A rich state that was sent is dispatched as itself, whichever form it took. */
  lemma RichDispatched(c: Codecs, d: Rich, attempt: bool, maxSize: nat, deltas: bool, compression: bool)
    requires LeadsWithUuid(c.plain) && Serializes(c.rich, d) && Inverts(c.z, c.rich.encode(d))
    requires |d.screen| <= |c.rich.encode(d)| && EncodeRich(c.rich, c.z, d, attempt, maxSize, compression).Some?
    ensures var payload := EncodeRich(c.rich, c.z, d, attempt, maxSize, compression).value;
            Dispatch(c, payload, deltas, compression) == GotRich(d)
  {
    RichRoundTrip(c.rich, c.z, d, attempt, maxSize, compression);
    KindsAreDisjoint(c, EncodeRich(c.rich, c.z, d, attempt, maxSize, compression).value, compression);
  }

  /** A plain state within the bounds is dispatched as itself, although it carries no prefix. */
  lemma PlainDispatched(c: Codecs, d: Plain, deltas: bool, compression: bool)
    requires LeadsWithUuid(c.plain) && Serializes(c.plain, d)
    requires |c.plain.encode(d)| <= MAX_DECODED_BYTES && |d.screen.lines| <= PLAIN_MAX_ROWS
    ensures Dispatch(c, c.plain.encode(d), deltas, compression) == GotPlain(d)
  {
    KindsAreDisjoint(c, c.plain.encode(d), compression);
  }
}
