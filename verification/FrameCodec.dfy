/** Both framing layers of the federation socket: the binary envelope codec of
  * federation-transport.ts and the compressed frame codec of federation-frame-codec.ts, with the
  * optional Noise encryption around them. */
module FrameCodec {
  import opened Prelude
  import opened Noise

  // "PWRBLOB1" and "PWB1" in ASCII.
  const BLOB_MAGIC: bytes := [80, 87, 82, 66, 76, 79, 66, 49]
  const BROTLI_MAGIC: bytes := [80, 87, 66, 49]
  const BLOB_PREFIX_BYTES := 12
  const BROTLI_HEADER_BYTES := 8
  const BLOB_MAX_HEADER_BYTES := 65536
  const COMPRESSION_THRESHOLD_BYTES := 4096
  const PROBE_MIN_BYTES := 32768
  const PROBE_BYTES := 4096
  const OPEN_BRACE := 123

  /** JSON documents that can appear on the socket. A binary kind never travels as plain JSON, and
    * its header never carries the data itself. */
  datatype Doc =
    | Control(body: string)
    | Plain(body: string)
    | Header(body: string, hasData: bool)
    | Other

  datatype Message =
    | ControlMessage(body: string)
    | PlainEnvelope(body: string)
    | BinaryEnvelope(header: string, data: bytes, chunk: bool)

  /** JSON and Brotli as given: `inflate` takes the output limit. */
  datatype Codec = Codec(stringify: Doc -> bytes, parse: bytes -> Option<Doc>,
                         deflate: bytes -> bytes, inflate: (bytes, nat) -> Option<bytes>,
                         isChunk: string -> bool)

  ghost predicate Faithful(k: Codec) {
    && (forall d: Doc :: !d.Other? ==>
         k.parse(k.stringify(d)) == Some(d) && |k.stringify(d)| > 0 && k.stringify(d)[0] == OPEN_BRACE)
    && (forall x, limit :: k.inflate(k.deflate(x), limit) == if |x| <= limit then Some(x) else None)
  }

  // ---- four-byte lengths ----

  function WriteU32(n: nat): bytes
    requires n < 0x1_0000_0000
  {
    [n / 0x100 / 0x100 / 0x100, n / 0x100 / 0x100 % 0x100, n / 0x100 % 0x100, n % 0x100]
  }

  function ReadU32(b: bytes): nat
    requires |b| >= 4
  {
    b[0] as int * 0x100_0000 + b[1] as int * 0x1_0000 + b[2] as int * 0x100 + b[3] as int
  }

  lemma U32RoundTrip(n: nat, tail: bytes)
    requires n < 0x1_0000_0000
    ensures ReadU32(WriteU32(n) + tail) == n && |WriteU32(n)| == 4
  {
    var q, b := n / 0x100 / 0x100, WriteU32(n) + tail;
    assert q == 0x100 * b[0] as int + b[1] as int;
    assert n == 0x1_0000 * q + 0x100 * b[2] as int + b[3] as int;
  }

  // ---- socket payloads ----

  function EncodePayload(k: Codec, m: Message): Option<bytes> {
    match m
    case ControlMessage(body) => Some(k.stringify(Control(body)))
    case PlainEnvelope(body) => Some(k.stringify(Plain(body)))
    case BinaryEnvelope(header, data, chunk) =>
      var h := k.stringify(Header(header, false));
      if |h| > BLOB_MAX_HEADER_BYTES then None else Some(BLOB_MAGIC + WriteU32(|h|) + h + data)
  }

  function DecodeBlob(k: Codec, payload: bytes): Option<Message>
    requires |payload| >= BLOB_PREFIX_BYTES
  {
    var length := ReadU32(payload[|BLOB_MAGIC|..]);
    if length == 0 || length > BLOB_MAX_HEADER_BYTES || BLOB_PREFIX_BYTES + length > |payload| then None
    else
      match k.parse(payload[BLOB_PREFIX_BYTES..BLOB_PREFIX_BYTES + length])
      case Some(Header(body, false)) =>
        Some(BinaryEnvelope(body, payload[BLOB_PREFIX_BYTES + length..], k.isChunk(body)))
      case _ => None
  }

  function DecodePayload(k: Codec, payload: bytes): Option<Message> {
    if |payload| >= BLOB_PREFIX_BYTES && payload[..|BLOB_MAGIC|] == BLOB_MAGIC then DecodeBlob(k, payload)
    else
      match k.parse(payload)
      case Some(Control(body)) => Some(ControlMessage(body))
      case Some(Plain(body)) => Some(PlainEnvelope(body))
      case _ => None
  }

  // ---- compressed frames ----

  /** A sample of the last 4 KiB that does not shrink to 90% skips compression. */
  predicate Incompressible(k: Codec, json: bytes) {
    |json| >= PROBE_MIN_BYTES && 10 * |k.deflate(json[|json| - PROBE_BYTES..])| >= 9 * PROBE_BYTES
  }

  function EncodeFrame(k: Codec, json: bytes, compress: bool): Option<bytes> {
    if !compress || |json| < COMPRESSION_THRESHOLD_BYTES || Incompressible(k, json) then Some(json)
    else
      var packed := k.deflate(json);
      if |packed| + BROTLI_HEADER_BYTES >= |json| then Some(json)
      else if |json| >= 0x1_0000_0000 then None
      else Some(BROTLI_MAGIC + WriteU32(|json|) + packed)
  }

  datatype FrameError = TooLarge | NotNegotiated | Corrupt | LengthMismatch | BadTag

  datatype Decoded<T> = Ok(value: T) | Err(error: FrameError)

  function DecodeFramePayload(k: Codec, frame: bytes, compress: bool, maxDecoded: nat): Decoded<bytes> {
    if |frame| < BROTLI_HEADER_BYTES || frame[..|BROTLI_MAGIC|] != BROTLI_MAGIC then
      if |frame| > maxDecoded then Err(TooLarge) else Ok(frame)
    else if !compress then Err(NotNegotiated)
    else
      var declared := ReadU32(frame[|BROTLI_MAGIC|..]);
      if declared > maxDecoded then Err(TooLarge)
      else
        match k.inflate(frame[BROTLI_HEADER_BYTES..], maxDecoded)
        case None => Err(Corrupt)
        case Some(decoded) => if |decoded| != declared then Err(LengthMismatch) else Ok(decoded)
  }

  // ---- the whole path ----

  datatype Limits = Limits(maxFrame: nat, maxDecoded: nat)

  /** What `sendFrame` puts on the wire, with the advanced cipher; nothing when it throws. */
  function SendFrame(c: Crypto, k: Codec, m: Message, transport: Option<Cipher>, compress: bool,
                     limits: Limits): Option<(Option<Cipher>, bytes)> {
    var payload := EncodePayload(k, m);
    if payload.None? || |payload.value| > limits.maxDecoded then None
    else
      var frame := EncodeFrame(k, payload.value, compress && !(m.BinaryEnvelope? && m.chunk));
      if frame.None? then None
      else
        var wireBytes := |frame.value| + (if transport.Some? then TAG_BYTES else 0);
        if wireBytes > limits.maxFrame then None
        else if transport.None? then Some((None, frame.value))
        else
          var sealed := Encrypt(c, transport.value, [], frame.value);
          if sealed.None? then None else Some((Some(sealed.value.0), sealed.value.1))
  }

  /** The receiver drops a wire message over the limit, then decrypts, unpacks and parses. */
  function ReceiveFrame(c: Crypto, k: Codec, wire: bytes, transport: Option<Cipher>, compress: bool, limits: Limits)
    : Decoded<(Option<Cipher>, Option<Message>)>
  {
    if |wire| > limits.maxFrame then Err(TooLarge)
    else
      var decrypted := if transport.None? then Some((Cipher(None, 0), wire)) else Decrypt(c, transport.value, [], wire);
      if decrypted.None? then Err(BadTag)
      else
        match DecodeFramePayload(k, decrypted.value.1, compress, limits.maxDecoded)
        case Err(e) => Err(e)
        case Ok(payload) => Ok((if transport.None? then None else Some(decrypted.value.0), DecodePayload(k, payload)))
  }

  /** A chunk flag that is what the header says it is. */
  predicate Proper(k: Codec, m: Message) {
    m.BinaryEnvelope? ==> m.chunk == k.isChunk(m.header)
  }

  // ---- round trips ----

  lemma Leading(a: bytes, b: bytes, n: nat)
    requires n <= |a|
    ensures (a + b)[..n] == a[..n]
    ensures (a + b)[|a|..] == b
  {
  }

  /** Every payload starts with an open brace or the blob magic: never with the Brotli magic. */
  lemma NeverLooksCompressed(k: Codec, m: Message)
    requires Faithful(k) && EncodePayload(k, m).Some?
    ensures var p := EncodePayload(k, m).value; |p| > 0 && (|p| >= 4 ==> p[..4] != BROTLI_MAGIC)
  {
    var p := EncodePayload(k, m).value;
    if m.BinaryEnvelope? {
      assert p[2] == BLOB_MAGIC[2] == 82;
      assert |p| >= 4 && p[..4][2] != BROTLI_MAGIC[2];
    } else {
      assert p[0] == OPEN_BRACE;
      if |p| >= 4 { assert p[..4][0] == p[0]; }
    }
  }

  lemma PayloadRoundTrip(k: Codec, m: Message)
    requires Faithful(k) && Proper(k, m) && EncodePayload(k, m).Some?
    ensures DecodePayload(k, EncodePayload(k, m).value) == Some(m)
  {
    var p := EncodePayload(k, m).value;
    match m
    case BinaryEnvelope(header, data, chunk) =>
      var h := k.stringify(Header(header, false));
      U32RoundTrip(|h|, h + data);
      assert p == BLOB_MAGIC + (WriteU32(|h|) + (h + data));
      Leading(BLOB_MAGIC, WriteU32(|h|) + (h + data), 8);
      assert p[12..12 + |h|] == h && p[12 + |h|..] == data;
    case _ =>
      assert p[0] == OPEN_BRACE;
      if |p| >= BLOB_PREFIX_BYTES { assert p[..8][0] != BLOB_MAGIC[0]; }
  }

  lemma FrameRoundTrip(k: Codec, m: Message, compressed: bool, negotiated: bool, maxDecoded: nat)
    requires Faithful(k) && (compressed ==> negotiated)
    requires EncodePayload(k, m).Some? && |EncodePayload(k, m).value| <= maxDecoded
    requires EncodeFrame(k, EncodePayload(k, m).value, compressed).Some?
    ensures DecodeFramePayload(k, EncodeFrame(k, EncodePayload(k, m).value, compressed).value, negotiated, maxDecoded)
         == Ok(EncodePayload(k, m).value)
  {
    var p := EncodePayload(k, m).value;
    var frame := EncodeFrame(k, p, compressed).value;
    NeverLooksCompressed(k, m);
    if frame != p {
      U32RoundTrip(|p|, k.deflate(p));
      assert frame == BROTLI_MAGIC + (WriteU32(|p|) + k.deflate(p));
      Leading(BROTLI_MAGIC, WriteU32(|p|) + k.deflate(p), 4);
      assert frame[8..] == k.deflate(p);
    }
  }

  /** Whatever is sent arrives as the same message, plain or encrypted, with compression or not,
    * at a receiver whose cipher is in step; so it is never rejected for its size. */
  lemma WireRoundTrip(c: Crypto, k: Codec, m: Message, transport: Option<Cipher>, compress: bool, limits: Limits)
    requires Lawful(c) && Faithful(k) && Proper(k, m)
    requires transport.Some? ==> transport.value.key.Some?
    requires SendFrame(c, k, m, transport, compress, limits).Some?
    ensures var (next, wire) := SendFrame(c, k, m, transport, compress, limits).value;
      ReceiveFrame(c, k, wire, transport, compress, limits) == Ok((next, Some(m)))
  {
    var payload := EncodePayload(k, m).value;
    var packs := compress && !(m.BinaryEnvelope? && m.chunk);
    PayloadRoundTrip(k, m);
    FrameRoundTrip(k, m, packs, compress, limits.maxDecoded);
    var frame := EncodeFrame(k, payload, packs).value;
    if transport.Some? {
      var t := transport.value;
      var wire := c.seal(t.key.value, t.nonce, [], frame);
      assert c.open(t.key.value, t.nonce, [], wire) == Some(frame) && |wire| == |frame| + TAG_BYTES;
    }
  }

  /** A frame is never larger than its payload, so only the payload limit and the tag can refuse it. */
  lemma FrameNeverGrows(k: Codec, json: bytes, compress: bool)
    requires EncodeFrame(k, json, compress).Some?
    ensures |EncodeFrame(k, json, compress).value| <= |json|
  {
  }

  /** With compression not negotiated, a compressed frame is refused and nothing is inflated. */
  lemma UnnegotiatedIsRefused(k: Codec, json: bytes, maxDecoded: nat)
    requires EncodeFrame(k, json, true).Some? && EncodeFrame(k, json, true).value != json
    ensures DecodeFramePayload(k, EncodeFrame(k, json, true).value, false, maxDecoded) == Err(NotNegotiated)
  {
    var frame := EncodeFrame(k, json, true).value;
    Leading(BROTLI_MAGIC, WriteU32(|json|) + k.deflate(json), 4);
    assert frame == BROTLI_MAGIC + (WriteU32(|json|) + k.deflate(json));
  }

  // ---- what is sent ----

  /** The four bytes from `at` on as a number. */
  function BigEndian(b: bytes, at: nat): int
    requires at + 4 <= |b|
  {
    b[at] as int * 0x100_0000 + b[at + 1] as int * 0x1_0000 + b[at + 2] as int * 0x100 + b[at + 3] as int
  }

  /** A binary envelope on the wire: "PWRBLOB1", the length of its header, the header, the data. It is
    * refused exactly for a header of more than 64 KiB; JSON envelopes are always sent as they are. */
  lemma PayloadLayout(k: Codec, m: Message)
    ensures m.ControlMessage? ==> EncodePayload(k, m) == Some(k.stringify(Control(m.body)))
    ensures m.PlainEnvelope? ==> EncodePayload(k, m) == Some(k.stringify(Plain(m.body)))
    ensures m.BinaryEnvelope? ==>
      var h := k.stringify(Header(m.header, false));
      && (EncodePayload(k, m).Some? <==> |h| <= 65536)
      && (|h| <= 65536 ==>
            var p := EncodePayload(k, m).value;
            && p[..8] == [80, 87, 82, 66, 76, 79, 66, 49] && p[12..] == h + m.data
            && BigEndian(p, 8) == |h|)
  {
    if m.BinaryEnvelope? && |k.stringify(Header(m.header, false))| <= 65536 {
      var h := k.stringify(Header(m.header, false));
      U32RoundTrip(|h|, h + m.data);
      assert EncodePayload(k, m).value == BLOB_MAGIC + (WriteU32(|h|) + (h + m.data));
      Leading(BLOB_MAGIC, WriteU32(|h|) + (h + m.data), 8);
    }
  }

  /** Worth compressing: large enough, not known to be dense from its last 4 KiB, and smaller for it. */
  predicate Shrinks(k: Codec, json: bytes) {
    && |json| >= 4096
    && (|json| < 32768 || 10 * |k.deflate(json[|json| - 4096..])| < 9 * 4096)
    && |k.deflate(json)| + 8 < |json|
  }

  /** Exactly what is compressed, and how: "PWB1", the decoded length, the packed bytes. */
  lemma CompressesExactly(k: Codec, json: bytes, compress: bool)
    requires |json| < 0x1_0000_0000
    ensures EncodeFrame(k, json, compress).Some?
    ensures var frame := EncodeFrame(k, json, compress).value;
      if compress && Shrinks(k, json) then
        && |frame| == 8 + |k.deflate(json)| && frame[..4] == [80, 87, 66, 49] && frame[8..] == k.deflate(json)
        && BigEndian(frame, 4) == |json|
      else frame == json
  {
    if compress && Shrinks(k, json) {
      U32RoundTrip(|json|, k.deflate(json));
      assert EncodeFrame(k, json, compress).value == BROTLI_MAGIC + (WriteU32(|json|) + k.deflate(json));
      Leading(BROTLI_MAGIC, WriteU32(|json|) + k.deflate(json), 4);
    }
  }

  /** Exactly when a message is sent: its header and its payload are within their limits, its frame with
    * the tag is within the frame limit, and the cipher has a nonce left. */
  lemma SendsExactly(c: Crypto, k: Codec, m: Message, transport: Option<Cipher>, compress: bool, limits: Limits)
    requires EncodePayload(k, m).Some? && |EncodePayload(k, m).value| < 0x1_0000_0000
    requires transport.Some? ==> transport.value.key.Some?
    ensures var payload := EncodePayload(k, m).value;
      var packs := compress && !(m.BinaryEnvelope? && m.chunk);
      var frame := EncodeFrame(k, payload, packs);
      && frame.Some?
      && (SendFrame(c, k, m, transport, compress, limits).Some? <==>
            && |payload| <= limits.maxDecoded
            && |frame.value| + (if transport.Some? then 16 else 0) <= limits.maxFrame
            && (transport.Some? ==> transport.value.nonce < 0xffff_ffff_ffff_ffff))
  {
    CompressesExactly(k, EncodePayload(k, m).value, compress && !(m.BinaryEnvelope? && m.chunk));
  }

  /** What a receiver refuses before it parses anything. */
  lemma RefusesExactly(k: Codec, frame: bytes, compress: bool, maxDecoded: nat)
    ensures var packed := |frame| >= 8 && frame[..4] == [80, 87, 66, 49];
      var decoded := DecodeFramePayload(k, frame, compress, maxDecoded);
      && (!packed ==> decoded == if |frame| <= maxDecoded then Ok(frame) else Err(TooLarge))
      && (packed && !compress ==> decoded == Err(NotNegotiated))
      && (packed && compress ==>
            var length := BigEndian(frame, 4);
            var data := k.inflate(frame[8..], maxDecoded);
            decoded == if length > maxDecoded then Err(TooLarge)
                       else if data.None? then Err(Corrupt)
                       else if |data.value| != length then Err(LengthMismatch)
                       else Ok(data.value))
  {
  }

  /** What a receiver makes of a payload: a binary envelope needs a header of 1 byte to 64 KiB that is all
    * there and does not carry the data itself; anything else must be a control message or a plain envelope. */
  lemma DecodesExactly(k: Codec, payload: bytes)
    ensures var blob := |payload| >= 12 && payload[..8] == [80, 87, 82, 66, 76, 79, 66, 49];
      && (blob ==>
            var length := BigEndian(payload, 8);
            DecodePayload(k, payload) ==
              if 1 <= length <= 65536 && 12 + length <= |payload| then
                match k.parse(payload[12..12 + length]) {
                  case Some(Header(body, false)) => Some(BinaryEnvelope(body, payload[12 + length..], k.isChunk(body)))
                  case _ => None
                }
              else None)
      && (!blob ==>
            DecodePayload(k, payload) ==
              match k.parse(payload) {
                case Some(Control(body)) => Some(ControlMessage(body))
                case Some(Plain(body)) => Some(PlainEnvelope(body))
                case _ => None
              })
  {
  }

  /** Before that, a wire message over the frame limit, or one that does not open, is refused. */
  lemma ReceivesExactly(c: Crypto, k: Codec, wire: bytes, transport: Option<Cipher>, compress: bool, limits: Limits)
    ensures var received := ReceiveFrame(c, k, wire, transport, compress, limits);
      && (|wire| > limits.maxFrame ==> received == Err(TooLarge))
      && (|wire| <= limits.maxFrame && transport.Some? && Decrypt(c, transport.value, [], wire).None? ==>
            received == Err(BadTag))
      && (|wire| <= limits.maxFrame && transport.None? ==>
            match DecodeFramePayload(k, wire, compress, limits.maxDecoded) {
              case Err(e) => received == Err(e)
              case Ok(payload) => received == Ok((None, DecodePayload(k, payload)))
            })
  {
    hide DecodeFramePayload, DecodePayload;
  }
}
