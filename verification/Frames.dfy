/**
 * The stream-frame envelope of protocol version 17, the bare frames of version 16, and the
 * length-prefixed streams both travel in.  The zlib codec and the compression heuristic are
 * parameters.
 */
module Frames {
  import opened Base

  const MAX_FRAME_BYTES: nat := 128 * 1024 * 1024
  const FRAME_HEADER_BYTES: nat := 7
  const MAX_WIRE_FRAME_BYTES: nat := MAX_FRAME_BYTES + FRAME_HEADER_BYTES
  const FRAME_MAGIC: seq<byte> := [0x41, 0x46]
  const ENCODING_PLAIN: byte := 0
  const ENCODING_ZLIB: byte := 1
  const PROTOCOL_VERSION: nat := 17
  const LEGACY_PROTOCOL_VERSION: nat := 16

  datatype FrameError = TooLarge | Truncated | BadMagic | BadEncoding | BadLength | BadBody | BadVersion

  // ---------- big-endian lengths ----------

  function U32Bytes(n: nat): (r: seq<byte>)
    requires n < 0x1_0000_0000
    ensures |r| == 4
  {
    var high, upper, lower := n / 0x100 / 0x100 / 0x100, n / 0x100 / 0x100, n / 0x100;
    [high as byte, (upper % 0x100) as byte, (lower % 0x100) as byte, (n % 0x100) as byte]
  }

  function U32Of(b: seq<byte>): (r: nat)
    requires |b| == 4
    ensures r < 0x1_0000_0000
  {
    ((b[0] as nat * 0x100 + b[1] as nat) * 0x100 + b[2] as nat) * 0x100 + b[3] as nat
  }

  lemma U32RoundTrip(n: nat)
    requires n < 0x1_0000_0000
    ensures U32Of(U32Bytes(n)) == n
  {
    var lower := n / 0x100;
    var upper := lower / 0x100;
    var high := upper / 0x100;
    assert upper == high * 0x100 + upper % 0x100 && lower == upper * 0x100 + lower % 0x100;
  }

  lemma U32Canonical(b: seq<byte>)
    requires |b| == 4
    ensures U32Bytes(U32Of(b)) == b
  {
    var high := b[0] as nat;
    var upper := high * 0x100 + b[1] as nat;
    var lower := upper * 0x100 + b[2] as nat;
    var n := lower * 0x100 + b[3] as nat;
    assert n / 0x100 == lower && n % 0x100 == b[3] as nat;
    assert lower / 0x100 == upper && lower % 0x100 == b[2] as nat;
    assert upper / 0x100 == high && upper % 0x100 == b[1] as nat;
  }

  /** The weight of the byte that has `k` bytes behind it. */
  function Place(k: nat): nat { if k == 0 then 1 else 0x100 * Place(k - 1) }

  /** The value is positional, the first byte weighing most. */
  lemma U32IsBigEndian(b: seq<byte>)
    requires |b| == 4
    ensures U32Of(b)
            == b[0] as nat * Place(3) + b[1] as nat * Place(2) + b[2] as nat * Place(1) + b[3] as nat * Place(0)
  {
    assert Place(1) == 0x100 && Place(2) == 0x1_0000 && Place(3) == 0x100_0000;
  }

  /** So lengths compare as their bytes do, first byte first. */
  lemma U32ComparesBytewise(b: seq<byte>, c: seq<byte>, k: nat)
    requires |b| == |c| == 4 && k < 4 && b[..k] == c[..k] && b[k] < c[k]
    ensures U32Of(b) < U32Of(c)
  {
    assert forall i :: 0 <= i < k ==> b[i] == b[..k][i] == c[..k][i] == c[i];
  }

  // ---------- one frame ----------

  /** zlib: `inflate(body, limit)` reads at most `limit` bytes of the decompressed body. */
  datatype Zlib = Zlib(deflate: seq<byte> -> seq<byte>, inflate: (seq<byte>, nat) -> Option<seq<byte>>)

  /** Decompression undoes compression of this payload, and the reader honours its limit. */
  predicate Inverts(z: Zlib, payload: seq<byte>) {
    z.inflate(z.deflate(payload), |payload| + 1) == Some(payload) && z.deflate(payload) != []
  }

  function Header(encoding: byte, length: nat): (r: seq<byte>)
    requires length < 0x1_0000_0000
    ensures |r| == FRAME_HEADER_BYTES
  {
    FRAME_MAGIC + [encoding] + U32Bytes(length)
  }

  /** `encode_frame_payload`; `attempt` is the outcome of the compression heuristic. */
  function EncodeFrame(z: Zlib, payload: seq<byte>, attempt: bool): Result<seq<byte>, FrameError> {
    if |payload| > MAX_FRAME_BYTES then Err(TooLarge)
    else
      var compressed := if attempt then z.deflate(payload) else payload;
      if attempt && |compressed| < |payload| && FRAME_HEADER_BYTES + |compressed| <= MAX_WIRE_FRAME_BYTES
      then Ok(Header(ENCODING_ZLIB, |payload|) + compressed)
      else Ok(Header(ENCODING_PLAIN, |payload|) + payload)
  }

  /** `frame_decoded_len`. */
  function FrameDecodedLen(header: seq<byte>): Result<nat, FrameError> {
    if |header| < FRAME_HEADER_BYTES then Err(Truncated)
    else if header[..2] != FRAME_MAGIC then Err(BadMagic)
    else if header[2] != ENCODING_PLAIN && header[2] != ENCODING_ZLIB then Err(BadEncoding)
    else if U32Of(header[3..7]) > MAX_FRAME_BYTES then Err(TooLarge)
    else Ok(U32Of(header[3..7]))
  }

  /** `decode_frame_payload`. */
  function DecodeFrame(z: Zlib, frame: seq<byte>): Result<seq<byte>, FrameError> {
    if |frame| < FRAME_HEADER_BYTES then Err(Truncated)
    else if frame[..2] != FRAME_MAGIC then Err(BadMagic)
    else
      var length, body := U32Of(frame[3..7]), frame[FRAME_HEADER_BYTES..];
      if length > MAX_FRAME_BYTES then Err(TooLarge)
      else if frame[2] == ENCODING_PLAIN then
        if |body| != length then Err(BadLength) else Ok(body)
      else if frame[2] == ENCODING_ZLIB then
        if body == [] then Err(BadBody)
        else
          var decoded := z.inflate(body, length + 1);
          if decoded.None? then Err(BadBody)
          else if |decoded.value| != length then Err(BadLength)
          else Ok(decoded.value)
      else Err(BadEncoding)
  }

  /** The parts of a frame that was put together from a header and a body. */
  lemma FrameParts(encoding: byte, length: nat, body: seq<byte>)
    requires length < 0x1_0000_0000
    ensures var f := Header(encoding, length) + body;
            && |f| == FRAME_HEADER_BYTES + |body| && f[..2] == FRAME_MAGIC && f[2] == encoding
            && U32Of(f[3..7]) == length && f[FRAME_HEADER_BYTES..] == body
  {
    var f := Header(encoding, length) + body;
    assert f[3..7] == U32Bytes(length);
    U32RoundTrip(length);
  }

  /** Every payload within the limit survives, whichever representation was chosen. */
  lemma FrameRoundTrip(z: Zlib, payload: seq<byte>, attempt: bool)
    requires Inverts(z, payload)
    ensures EncodeFrame(z, payload, attempt).Ok? <==> |payload| <= MAX_FRAME_BYTES
    ensures |payload| <= MAX_FRAME_BYTES ==>
              DecodeFrame(z, EncodeFrame(z, payload, attempt).value) == Ok(payload)
  {
    if |payload| <= MAX_FRAME_BYTES {
      FrameParts(ENCODING_ZLIB, |payload|, z.deflate(payload));
      FrameParts(ENCODING_PLAIN, |payload|, payload);
    }
  }

  /** A frame costs at most its header, and compression is used only when it is strictly shorter. */
  lemma FrameSize(z: Zlib, payload: seq<byte>, attempt: bool)
    requires |payload| <= MAX_FRAME_BYTES
    ensures var f := EncodeFrame(z, payload, attempt).value;
            && |f| <= |payload| + FRAME_HEADER_BYTES <= MAX_WIRE_FRAME_BYTES
            && (f[2] == ENCODING_ZLIB <==> attempt && |z.deflate(payload)| < |payload|)
            && (f[2] == ENCODING_ZLIB ==> |f| < |payload| + FRAME_HEADER_BYTES)
            && FrameDecodedLen(f) == Ok(|payload|)
  {
    FrameParts(ENCODING_ZLIB, |payload|, z.deflate(payload));
    FrameParts(ENCODING_PLAIN, |payload|, payload);
  }

  /** For arbitrary bytes: what decodes has the length its header announces, within the limit. */
  lemma DecodedLengthIsAnnounced(z: Zlib, frame: seq<byte>)
    ensures DecodeFrame(z, frame).Ok? ==>
              && FrameDecodedLen(frame) == Ok(|DecodeFrame(z, frame).value|)
              && |DecodeFrame(z, frame).value| <= MAX_FRAME_BYTES
    ensures |frame| >= FRAME_HEADER_BYTES ==> FrameDecodedLen(frame) == FrameDecodedLen(frame[..FRAME_HEADER_BYTES])
  {
    if |frame| >= FRAME_HEADER_BYTES {
      var h := frame[..FRAME_HEADER_BYTES];
      assert h[..2] == frame[..2] && h[3..7] == frame[3..7];
    }
  }

  /** A plain frame has exactly one encoding, so plain decoding loses nothing either. */
  lemma PlainFrameCanonical(z: Zlib, frame: seq<byte>)
    requires DecodeFrame(z, frame).Ok? && frame[2] == ENCODING_PLAIN
    ensures EncodeFrame(z, DecodeFrame(z, frame).value, false) == Ok(frame)
  {
    U32Canonical(frame[3..7]);
    assert frame == frame[..2] + [frame[2]] + frame[3..7] + frame[7..];
  }

  // ---------- versions and streams ----------

  function EncodeForVersion(z: Zlib, payload: seq<byte>, version: nat, attempt: bool): Result<seq<byte>, FrameError> {
    if version == LEGACY_PROTOCOL_VERSION then
      if |payload| > MAX_FRAME_BYTES then Err(TooLarge) else Ok(payload)
    else if version == PROTOCOL_VERSION then EncodeFrame(z, payload, attempt)
    else Err(BadVersion)
  }

  function DecodeForVersion(z: Zlib, payload: seq<byte>, version: nat): Result<seq<byte>, FrameError> {
    if version == LEGACY_PROTOCOL_VERSION then
      if |payload| > MAX_FRAME_BYTES then Err(TooLarge) else Ok(payload)
    else if version == PROTOCOL_VERSION then DecodeFrame(z, payload)
    else Err(BadVersion)
  }

  /** A message to send: its serialized payload and what the heuristic says about it. */
  datatype Outgoing = Outgoing(payload: seq<byte>, attempt: bool)

  predicate Sendable(z: Zlib, m: Outgoing) { |m.payload| <= MAX_FRAME_BYTES && Inverts(z, m.payload) }

  /** `write_frame_for_version`, as the bytes it puts on the stream. */
  function WriteFrame(z: Zlib, m: Outgoing, version: nat): Option<seq<byte>> {
    match EncodeForVersion(z, m.payload, version, m.attempt)
    case Ok(frame) => if |frame| < 0x1_0000_0000 then Some(U32Bytes(|frame|) + frame) else None
    case Err(_) => None
  }

  /** What reading one frame off a stream can give. */
  datatype ReadResult = EndOfStream | Frame(payload: seq<byte>, rest: seq<byte>) | Failed(error: FrameError)

  /** `read_frame_payload_for_version` followed by the decoder. */
  function ReadFrame(z: Zlib, stream: seq<byte>, version: nat): ReadResult {
    if stream == [] then EndOfStream
    else if |stream| < 4 then Failed(Truncated)
    else
      var length := U32Of(stream[..4]);
      var maximum := if version == LEGACY_PROTOCOL_VERSION then MAX_FRAME_BYTES else MAX_WIRE_FRAME_BYTES;
      if length > maximum then Failed(TooLarge)
      else if |stream| < 4 + length then Failed(Truncated)
      else
        match DecodeForVersion(z, stream[4..4 + length], version)
        case Ok(payload) => Frame(payload, stream[4 + length..])
        case Err(error) => Failed(error)
  }

  function WriteAll(z: Zlib, messages: seq<Outgoing>, version: nat): seq<byte> {
    if messages == [] then []
    else
      var first := WriteFrame(z, messages[0], version);
      (if first.Some? then first.value else []) + WriteAll(z, messages[1..], version)
  }

  /** Everything readable, and whether the stream ended cleanly behind it. */
  function ReadAll(z: Zlib, stream: seq<byte>, version: nat): (seq<seq<byte>>, bool)
    decreases |stream|
  {
    match ReadFrame(z, stream, version)
    case EndOfStream => ([], true)
    case Failed(_) => ([], false)
    case Frame(payload, rest) =>
      var more := ReadAll(z, rest, version);
      ([payload] + more.0, more.1)
  }

  /** One written frame, followed by anything, reads back as its payload and that rest. */
  lemma WrittenFrameReads(z: Zlib, m: Outgoing, version: nat, rest: seq<byte>)
    requires Sendable(z, m) && (version == PROTOCOL_VERSION || version == LEGACY_PROTOCOL_VERSION)
    ensures WriteFrame(z, m, version).Some?
    ensures ReadFrame(z, WriteFrame(z, m, version).value + rest, version) == Frame(m.payload, rest)
  {
    FrameRoundTrip(z, m.payload, m.attempt);
    FrameSize(z, m.payload, m.attempt);
    var frame := EncodeForVersion(z, m.payload, version, m.attempt).value;
    var stream := U32Bytes(|frame|) + frame + rest;
    U32RoundTrip(|frame|);
    assert stream[..4] == U32Bytes(|frame|);
    assert stream[4..4 + |frame|] == frame && stream[4 + |frame|..] == rest;
  }

  /** Reading on behind a written frame. */
  lemma ReadAllBehindFrame(z: Zlib, m: Outgoing, version: nat, rest: seq<byte>)
    requires Sendable(z, m) && (version == PROTOCOL_VERSION || version == LEGACY_PROTOCOL_VERSION)
    ensures WriteFrame(z, m, version).Some?
    ensures ReadAll(z, WriteFrame(z, m, version).value + rest, version)
         == ([m.payload] + ReadAll(z, rest, version).0, ReadAll(z, rest, version).1)
  {
    WrittenFrameReads(z, m, version, rest);
  }

  function Payloads(messages: seq<Outgoing>): seq<seq<byte>> {
    if messages == [] then [] else [messages[0].payload] + Payloads(messages[1..])
  }

  /** Reading back everything that was written returns the same payloads, for both versions. */
  lemma {:induction false} StreamRoundTrip(z: Zlib, messages: seq<Outgoing>, version: nat)
    requires forall i :: 0 <= i < |messages| ==> Sendable(z, messages[i])
    requires version == PROTOCOL_VERSION || version == LEGACY_PROTOCOL_VERSION
    ensures ReadAll(z, WriteAll(z, messages, version), version) == (Payloads(messages), true)
  {
    if messages != [] {
      StreamRoundTrip(z, messages[1..], version);
      ReadAllBehindFrame(z, messages[0], version, WriteAll(z, messages[1..], version));
    }
  }

  /** A stream cut anywhere inside a frame fails there, without inventing or damaging a payload. */
  lemma CutFrameFails(z: Zlib, m: Outgoing, version: nat, k: nat)
    requires Sendable(z, m) && (version == PROTOCOL_VERSION || version == LEGACY_PROTOCOL_VERSION)
    requires WriteFrame(z, m, version).Some? && 0 < k < |WriteFrame(z, m, version).value|
    ensures ReadFrame(z, WriteFrame(z, m, version).value[..k], version) == Failed(Truncated)
  {
    FrameSize(z, m.payload, m.attempt);
    var frame := EncodeForVersion(z, m.payload, version, m.attempt).value;
    U32RoundTrip(|frame|);
    if k >= 4 {
      assert (U32Bytes(|frame|) + frame)[..k][..4] == U32Bytes(|frame|);
    }
  }

  predicate IsPrefix(a: seq<seq<byte>>, b: seq<seq<byte>>) { |a| <= |b| && a == b[..|a|] }

  lemma PrefixPush(x: seq<byte>, a: seq<seq<byte>>, b: seq<seq<byte>>)
    requires IsPrefix(a, b)
    ensures IsPrefix([x] + a, [x] + b)
  {}

  /** The first `k` bytes are a number of whole frames. */
  ghost predicate OnBoundary(z: Zlib, messages: seq<Outgoing>, version: nat, k: nat) {
    exists m :: 0 <= m <= |messages| && EndsAfter(z, messages, version, m, k)
  }

  predicate EndsAfter(z: Zlib, messages: seq<Outgoing>, version: nat, m: nat, k: nat)
    requires m <= |messages|
  {
    |WriteAll(z, messages[..m], version)| == k
  }

  lemma EndsAfterFirst(z: Zlib, messages: seq<Outgoing>, version: nat, m: nat, k: nat)
    requires 0 < m <= |messages| && WriteFrame(z, messages[0], version).Some?
    ensures var n := |WriteFrame(z, messages[0], version).value|;
            EndsAfter(z, messages, version, m, k) <==> n <= k && EndsAfter(z, messages[1..], version, m - 1, k - n)
  {
    assert messages[..m][1..] == messages[1..][..m - 1] && messages[..m][0] == messages[0];
  }

  lemma BoundaryBehindFirst(z: Zlib, messages: seq<Outgoing>, version: nat, k: nat)
    requires messages != [] && k > 0 && WriteFrame(z, messages[0], version).Some?
    ensures var n := |WriteFrame(z, messages[0], version).value|;
            OnBoundary(z, messages, version, k) <==> n <= k && OnBoundary(z, messages[1..], version, k - n)
  {
    var n := |WriteFrame(z, messages[0], version).value|;
    if OnBoundary(z, messages, version, k) {
      var m :| 0 <= m <= |messages| && EndsAfter(z, messages, version, m, k);
      EndsAfterFirst(z, messages, version, m, k);
      assert EndsAfter(z, messages[1..], version, m - 1, k - n);
    }
    if n <= k && OnBoundary(z, messages[1..], version, k - n) {
      var m :| 0 <= m <= |messages[1..]| && EndsAfter(z, messages[1..], version, m, k - n);
      EndsAfterFirst(z, messages, version, m + 1, k);
      assert EndsAfter(z, messages, version, m + 1, k);
    }
  }

  lemma ReadCutInFirst(z: Zlib, m: Outgoing, version: nat, rest: seq<byte>, k: nat)
    requires Sendable(z, m) && (version == PROTOCOL_VERSION || version == LEGACY_PROTOCOL_VERSION)
    requires WriteFrame(z, m, version).Some? && 0 < k < |WriteFrame(z, m, version).value|
    ensures ReadAll(z, (WriteFrame(z, m, version).value + rest)[..k], version) == ([], false)
  {
    CutFrameFails(z, m, version, k);
    assert (WriteFrame(z, m, version).value + rest)[..k] == WriteFrame(z, m, version).value[..k];
  }

  lemma ReadCutBehindFirst(z: Zlib, m: Outgoing, version: nat, rest: seq<byte>, k: nat)
    requires Sendable(z, m) && (version == PROTOCOL_VERSION || version == LEGACY_PROTOCOL_VERSION)
    requires WriteFrame(z, m, version).Some? && |WriteFrame(z, m, version).value| <= k
    requires k <= |WriteFrame(z, m, version).value + rest|
    ensures var first := WriteFrame(z, m, version).value;
            var more := ReadAll(z, rest[..k - |first|], version);
            ReadAll(z, (first + rest)[..k], version) == ([m.payload] + more.0, more.1)
  {
    var first := WriteFrame(z, m, version).value;
    ReadAllBehindFrame(z, m, version, rest[..k - |first|]);
    assert (first + rest)[..k] == first + rest[..k - |first|];
  }

  /**
   * Whatever prefix of the stream arrives, what is read is a prefix of what was sent, and it looks complete
   * exactly when the cut falls between two frames.
   */
  lemma {:induction false} CutStreamReadsPrefix(z: Zlib, messages: seq<Outgoing>, version: nat, k: nat)
    requires forall i :: 0 <= i < |messages| ==> Sendable(z, messages[i])
    requires version == PROTOCOL_VERSION || version == LEGACY_PROTOCOL_VERSION
    requires k <= |WriteAll(z, messages, version)|
    ensures IsPrefix(ReadAll(z, WriteAll(z, messages, version)[..k], version).0, Payloads(messages))
    ensures ReadAll(z, WriteAll(z, messages, version)[..k], version).1 <==> OnBoundary(z, messages, version, k)
  {
    if k == 0 {
      assert EndsAfter(z, messages, version, 0, 0);
    } else if messages != [] {
      var m, rest := messages[0], WriteAll(z, messages[1..], version);
      WrittenFrameReads(z, m, version, rest);
      BoundaryBehindFirst(z, messages, version, k);
      var n := |WriteFrame(z, m, version).value|;
      if k < n {
        ReadCutInFirst(z, m, version, rest, k);
      } else {
        CutStreamReadsPrefix(z, messages[1..], version, k - n);
        ReadCutBehindFirst(z, m, version, rest, k);
        PrefixPush(m.payload, ReadAll(z, rest[..k - n], version).0, Payloads(messages[1..]));
      }
    }
  }
}
