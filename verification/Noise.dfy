/** Noise_IK_25519_AESGCM_SHA256 (federation-noise.ts) over abstract primitives: the message
  * processing of sections 5.1 to 5.3 and the IK pattern of section 7.5 of the Noise Protocol
  * Framework, revision 34. */
module Noise {
  import opened Prelude

  const KEY_BYTES := 32
  const TAG_BYTES := 16
  const MAX_NONCE := 0xffff_ffff_ffff_ffff

  /** "Noise_IK_25519_AESGCM_SHA256" in ASCII; at most 32 bytes, so it is padded and not hashed. */
  const PROTOCOL_NAME: bytes := [78, 111, 105, 115, 101, 95, 73, 75, 95, 50, 53, 53, 49, 57,
                                 95, 65, 69, 83, 71, 67, 77, 95, 83, 72, 65, 50, 53, 54]

  /** The delegated primitives. A private key stands for its raw bytes; `open` fails on a bad tag. */
  datatype Crypto = Crypto(publicOf: bytes -> bytes,
                           agree: (bytes, bytes) -> Option<bytes>,
                           hmac: (bytes, bytes) -> bytes,
                           sha256: bytes -> bytes,
                           seal: (bytes, nat, bytes, bytes) -> bytes,
                           open: (bytes, nat, bytes, bytes) -> Option<bytes>)

  /** The only laws used: key agreement commutes, opening inverts sealing, and two sizes. */
  ghost predicate Lawful(c: Crypto) {
    && (forall a :: |c.publicOf(a)| == KEY_BYTES)
    && (forall a, b :: c.agree(a, c.publicOf(b)).Some? && c.agree(a, c.publicOf(b)) == c.agree(b, c.publicOf(a)))
    && (forall k, n, ad, p :: |c.seal(k, n, ad, p)| == |p| + TAG_BYTES)
    && (forall k, n, ad, p :: c.open(k, n, ad, c.seal(k, n, ad, p)) == Some(p))
  }

  /** Diffie-Hellman on a raw remote key, which must have the right length. */
  function Dh(c: Crypto, local: bytes, remote: bytes): Option<bytes> {
    if |remote| != KEY_BYTES then None else c.agree(local, remote)
  }

  function Hkdf2(c: Crypto, chainingKey: bytes, ikm: bytes): (bytes, bytes) {
    var temp := c.hmac(chainingKey, ikm);
    var output1 := c.hmac(temp, [1]);
    (output1, c.hmac(temp, output1 + [2]))
  }

  // ---- cipher state ----

  datatype Cipher = Cipher(key: Option<bytes>, nonce: nat)

  /** The advanced state and the bytes, or nothing and an unchanged state. */
  function Encrypt(c: Crypto, s: Cipher, ad: bytes, plaintext: bytes): Option<(Cipher, bytes)> {
    if s.key.None? then Some((s, plaintext))
    else if s.nonce >= MAX_NONCE then None
    else Some((s.(nonce := s.nonce + 1), c.seal(s.key.value, s.nonce, ad, plaintext)))
  }

  function Decrypt(c: Crypto, s: Cipher, ad: bytes, data: bytes): Option<(Cipher, bytes)> {
    if s.key.None? then Some((s, data))
    else if |data| < TAG_BYTES || s.nonce >= MAX_NONCE then None
    else
      var plaintext := c.open(s.key.value, s.nonce, ad, data);
      if plaintext.None? then None else Some((s.(nonce := s.nonce + 1), plaintext.value))
  }

  // ---- symmetric state ----

  datatype Sym = Sym(chainingKey: bytes, hash: bytes, cipher: Cipher)

  function Pad(name: bytes): bytes
    requires |name| <= KEY_BYTES
  {
    name + seq(KEY_BYTES - |name|, i => 0)
  }

  function InitSym(c: Crypto): Sym {
    var h := if |PROTOCOL_NAME| <= KEY_BYTES then Pad(PROTOCOL_NAME) else c.sha256(PROTOCOL_NAME);
    Sym(h, h, Cipher(None, 0))
  }

  function MixKey(c: Crypto, s: Sym, ikm: bytes): Sym {
    var (chainingKey, key) := Hkdf2(c, s.chainingKey, ikm);
    s.(chainingKey := chainingKey, cipher := Cipher(Some(key), 0))
  }

  function MixHash(c: Crypto, s: Sym, data: bytes): Sym {
    s.(hash := c.sha256(s.hash + data))
  }

  function EncryptAndHash(c: Crypto, s: Sym, plaintext: bytes): Option<(Sym, bytes)> {
    var r := Encrypt(c, s.cipher, s.hash, plaintext);
    if r.None? then None else Some((MixHash(c, s.(cipher := r.value.0), r.value.1), r.value.1))
  }

  function DecryptAndHash(c: Crypto, s: Sym, ciphertext: bytes): Option<(Sym, bytes)> {
    var r := Decrypt(c, s.cipher, s.hash, ciphertext);
    if r.None? then None else Some((MixHash(c, s.(cipher := r.value.0), ciphertext), r.value.1))
  }

  // ---- handshake ----

  datatype Role = Initiator | Responder

  datatype Handshake = Handshake(role: Role, sym: Sym, local: bytes, localEphemeral: Option<bytes>,
                                 remoteStatic: Option<bytes>, remoteEphemeral: Option<bytes>)

  /** A message operation: the state it leaves, and its output unless it failed part way. */
  datatype Outcome = Outcome(state: Handshake, output: Option<bytes>)

  function InitInitiator(c: Crypto, local: bytes, pinned: bytes, prologue: bytes): Handshake {
    Handshake(Initiator, MixHash(c, MixHash(c, InitSym(c), prologue), pinned), local, None, Some(pinned), None)
  }

  function InitResponder(c: Crypto, local: bytes, prologue: bytes): Handshake {
    Handshake(Responder, MixHash(c, MixHash(c, InitSym(c), prologue), c.publicOf(local)), local, None, None, None)
  }

  /** Mix the agreement of a local and a remote key; the state is unchanged when there is none. */
  function MixDh(c: Crypto, s: Sym, local: bytes, remote: bytes): (Sym, bool) {
    var secret := Dh(c, local, remote);
    if secret.None? then (s, false) else (MixKey(c, s, secret.value), true)
  }

  function Fail(h: Handshake, s: Sym): Outcome {
    Outcome(h.(sym := s), None)
  }

  /** -> e, es, s, ss, payload */
  function WriteMessage1(c: Crypto, h: Handshake, ephemeral: bytes, payload: bytes): Outcome {
    if h.role != Initiator || h.remoteStatic.None? then Outcome(h, None)
    else
      var h1 := h.(localEphemeral := Some(ephemeral));
      var s1 := MixHash(c, h.sym, c.publicOf(ephemeral));
      var (s2, es) := MixDh(c, s1, ephemeral, h.remoteStatic.value);
      if !es then Fail(h1, s2)
      else
        var encStatic := EncryptAndHash(c, s2, c.publicOf(h.local));
        if encStatic.None? then Fail(h1, s2)
        else
          var (s4, ss) := MixDh(c, encStatic.value.0, h.local, h.remoteStatic.value);
          if !ss then Fail(h1, s4)
          else
            var encPayload := EncryptAndHash(c, s4, payload);
            if encPayload.None? then Fail(h1, s4)
            else Outcome(h1.(sym := encPayload.value.0),
                         Some(c.publicOf(ephemeral) + encStatic.value.1 + encPayload.value.1))
  }

  function Slice(message: bytes, from: nat, to: nat): bytes
    requires from <= to
  {
    if from >= |message| then [] else message[from..Min(to, |message|)]
  }

  function From(message: bytes, from: nat): bytes {
    if from >= |message| then [] else message[from..]
  }

  function ReadMessage1(c: Crypto, h: Handshake, message: bytes): Outcome {
    if h.role != Responder then Outcome(h, None)
    else
      var re := Slice(message, 0, KEY_BYTES);
      var h1 := h.(remoteEphemeral := Some(re));
      var s1 := MixHash(c, h.sym, re);
      var (s2, es) := MixDh(c, s1, h.local, re);
      if !es then Fail(h1, s2)
      else
        var rs := DecryptAndHash(c, s2, Slice(message, KEY_BYTES, KEY_BYTES + KEY_BYTES + TAG_BYTES));
        if rs.None? then Fail(h1, s2)
        else
          var h2 := h1.(remoteStatic := Some(rs.value.1));
          var (s4, ss) := MixDh(c, rs.value.0, h.local, rs.value.1);
          if !ss then Fail(h2, s4)
          else
            var payload := DecryptAndHash(c, s4, From(message, KEY_BYTES + KEY_BYTES + TAG_BYTES));
            if payload.None? then Fail(h2, s4) else Outcome(h2.(sym := payload.value.0), Some(payload.value.1))
  }

  /** <- e, ee, se, payload */
  function WriteMessage2(c: Crypto, h: Handshake, ephemeral: bytes, payload: bytes): Outcome {
    if h.role != Responder || h.remoteEphemeral.None? || h.remoteStatic.None? then Outcome(h, None)
    else
      var h1 := h.(localEphemeral := Some(ephemeral));
      var s1 := MixHash(c, h.sym, c.publicOf(ephemeral));
      var (s2, ee) := MixDh(c, s1, ephemeral, h.remoteEphemeral.value);
      if !ee then Fail(h1, s2)
      else
        var (s3, se) := MixDh(c, s2, ephemeral, h.remoteStatic.value);
        if !se then Fail(h1, s3)
        else
          var encPayload := EncryptAndHash(c, s3, payload);
          if encPayload.None? then Fail(h1, s3)
          else Outcome(h1.(sym := encPayload.value.0), Some(c.publicOf(ephemeral) + encPayload.value.1))
  }

  function ReadMessage2(c: Crypto, h: Handshake, message: bytes): Outcome {
    if h.role != Initiator || h.localEphemeral.None? then Outcome(h, None)
    else
      var re := Slice(message, 0, KEY_BYTES);
      var h1 := h.(remoteEphemeral := Some(re));
      var s1 := MixHash(c, h.sym, re);
      var (s2, ee) := MixDh(c, s1, h.localEphemeral.value, re);
      if !ee then Fail(h1, s2)
      else
        var (s3, se) := MixDh(c, s2, h.local, re);
        if !se then Fail(h1, s3)
        else
          var payload := DecryptAndHash(c, s3, From(message, KEY_BYTES));
          if payload.None? then Fail(h1, s3) else Outcome(h1.(sym := payload.value.0), Some(payload.value.1))
  }

  datatype Transport = Transport(send: Cipher, recv: Cipher, handshakeHash: bytes)

  function Split(c: Crypto, h: Handshake): Transport {
    var (k1, k2) := Hkdf2(c, h.sym.chainingKey, []);
    var c1, c2 := Cipher(Some(k1), 0), Cipher(Some(k2), 0);
    if h.role == Initiator then Transport(c1, c2, h.sym.hash) else Transport(c2, c1, h.sym.hash)
  }

  // ---- agreement ----

  /** What one side seals under a shared symmetric state, the other opens, and they stay in step. */
  lemma SealOpen(c: Crypto, s: Sym, plaintext: bytes)
    requires Lawful(c) && s.cipher.key.Some? && s.cipher.nonce < MAX_NONCE
    ensures EncryptAndHash(c, s, plaintext).Some?
    ensures var (s', ciphertext) := EncryptAndHash(c, s, plaintext).value;
      |ciphertext| == |plaintext| + TAG_BYTES && DecryptAndHash(c, s, ciphertext) == Some((s', plaintext))
  {
    var ciphertext := c.seal(s.cipher.key.value, s.cipher.nonce, s.hash, plaintext);
    assert c.open(s.cipher.key.value, s.cipher.nonce, s.hash, ciphertext) == Some(plaintext);
  }

  lemma SharedSecret(c: Crypto, s: Sym, a: bytes, b: bytes)
    requires Lawful(c)
    ensures MixDh(c, s, a, c.publicOf(b)) == MixDh(c, s, b, c.publicOf(a))
    ensures MixDh(c, s, a, c.publicOf(b)).1
    ensures MixDh(c, s, a, c.publicOf(b)).0.cipher.key.Some? && MixDh(c, s, a, c.publicOf(b)).0.cipher.nonce == 0
  {
    assert |c.publicOf(a)| == KEY_BYTES && |c.publicOf(b)| == KEY_BYTES;
  }

  /** Cutting a message at the boundaries it was joined at gives its parts back. */
  lemma Parts(a: bytes, b: bytes, d: bytes)
    ensures Slice(a + b + d, 0, |a|) == a && Slice(a + b + d, |a|, |a| + |b|) == b && From(a + b + d, |a| + |b|) == d
    ensures Slice(a + d, 0, |a|) == a && From(a + d, |a|) == d
  {
  }

  lemma Message1Agrees(c: Crypto, i: Handshake, r: Handshake, ephemeral: bytes, payload: bytes)
    requires Lawful(c) && i.role == Initiator && r.role == Responder
    requires i.remoteStatic == Some(c.publicOf(r.local)) && i.sym == r.sym
    ensures var sent := WriteMessage1(c, i, ephemeral, payload);
      && sent.output.Some?
      && sent.state == i.(localEphemeral := Some(ephemeral), sym := sent.state.sym)
      && ReadMessage1(c, r, sent.output.value) ==
         Outcome(r.(remoteEphemeral := Some(c.publicOf(ephemeral)), remoteStatic := Some(c.publicOf(i.local)),
                    sym := sent.state.sym), Some(payload))
  {
    var s1 := MixHash(c, i.sym, c.publicOf(ephemeral));
    SharedSecret(c, s1, ephemeral, r.local);
    var s2 := MixDh(c, s1, ephemeral, c.publicOf(r.local)).0;
    SealOpen(c, s2, c.publicOf(i.local));
    var (s3, encStatic) := EncryptAndHash(c, s2, c.publicOf(i.local)).value;
    SharedSecret(c, s3, i.local, r.local);
    var s4 := MixDh(c, s3, i.local, c.publicOf(r.local)).0;
    SealOpen(c, s4, payload);
    var encPayload := EncryptAndHash(c, s4, payload).value.1;
    Parts(c.publicOf(ephemeral), encStatic, encPayload);
  }

  lemma Message2Agrees(c: Crypto, i: Handshake, r: Handshake, ephemeral: bytes, payload: bytes)
    requires Lawful(c) && i.role == Initiator && r.role == Responder && i.sym == r.sym && i.localEphemeral.Some?
    requires r.remoteEphemeral == Some(c.publicOf(i.localEphemeral.value))
      && r.remoteStatic == Some(c.publicOf(i.local))
    ensures var sent := WriteMessage2(c, r, ephemeral, payload);
      && sent.output.Some?
      && sent.state == r.(localEphemeral := Some(ephemeral), sym := sent.state.sym)
      && ReadMessage2(c, i, sent.output.value) ==
         Outcome(i.(remoteEphemeral := Some(c.publicOf(ephemeral)), sym := sent.state.sym), Some(payload))
  {
    var s1 := MixHash(c, r.sym, c.publicOf(ephemeral));
    SharedSecret(c, s1, ephemeral, i.localEphemeral.value);
    var s2 := MixDh(c, s1, ephemeral, c.publicOf(i.localEphemeral.value)).0;
    SharedSecret(c, s2, ephemeral, i.local);
    var s3 := MixDh(c, s2, ephemeral, c.publicOf(i.local)).0;
    SealOpen(c, s3, payload);
    Parts(c.publicOf(ephemeral), [], EncryptAndHash(c, s3, payload).value.1);
  }

  /** A handshake with the pinned responder: both payloads arrive, the responder learns who
    * called, both hold the same handshake hash, and each sends with the other's receiving key. */
  lemma Agreement(c: Crypto, initiator: bytes, responder: bytes, e1: bytes, e2: bytes, prologue: bytes,
                  payload1: bytes, payload2: bytes)
    requires Lawful(c)
    ensures var sent1 := WriteMessage1(c, InitInitiator(c, initiator, c.publicOf(responder), prologue), e1, payload1);
      && sent1.output.Some?
      && var got1 := ReadMessage1(c, InitResponder(c, responder, prologue), sent1.output.value);
      && got1.output == Some(payload1) && got1.state.remoteStatic == Some(c.publicOf(initiator))
      && var sent2 := WriteMessage2(c, got1.state, e2, payload2);
      && sent2.output.Some?
      && var got2 := ReadMessage2(c, sent1.state, sent2.output.value);
      && got2.output == Some(payload2)
      && var i, r := Split(c, got2.state), Split(c, sent2.state);
      && i.handshakeHash == r.handshakeHash && i.send == r.recv && i.recv == r.send
      && i.send.key.Some? && i.recv.key.Some? && i.send.nonce == i.recv.nonce == 0
  {
    var i, r := InitInitiator(c, initiator, c.publicOf(responder), prologue), InitResponder(c, responder, prologue);
    Message1Agrees(c, i, r, e1, payload1);
    var sent1 := WriteMessage1(c, i, e1, payload1);
    var got1 := ReadMessage1(c, r, sent1.output.value);
    Message2Agrees(c, sent1.state, got1.state, e2, payload2);
  }
}
