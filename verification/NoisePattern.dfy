/** Handshake patterns as sections 5.1 to 5.3 of the Noise Protocol Framework, revision 34, process them,
  * token by token; and the proof that the hand-written handshake is the pattern IK of section 7.5. */
module NoisePattern {
  import opened Prelude
  import opened Noise

  datatype Token = E | S | EE | ES | SE | SS

  /** Pre-message: the responder's static key. */
  const FIRST: seq<Token> := [E, ES, S, SS]
  const SECOND: seq<Token> := [E, EE, SE]

  /** One party: chaining key, handshake hash, cipher key and nonce, its private keys, and the public keys
    * of the other party as far as they are known. */
  datatype Party = Party(initiator: bool, ck: bytes, h: bytes, key: Option<bytes>, nonce: nat,
                         s: bytes, e: Option<bytes>, rs: Option<bytes>, re: Option<bytes>)

  // ---- the symmetric operations ----

  function First(c: Crypto, ck: bytes, ikm: bytes): bytes {
    c.hmac(c.hmac(ck, ikm), [1])
  }

  function Second(c: Crypto, ck: bytes, ikm: bytes): bytes {
    c.hmac(c.hmac(ck, ikm), First(c, ck, ikm) + [2])
  }

  function Keyed(c: Crypto, p: Party, ikm: bytes): Party {
    p.(ck := First(c, p.ck, ikm), key := Some(Second(c, p.ck, ikm)), nonce := 0)
  }

  function Hashed(c: Crypto, p: Party, data: bytes): Party {
    p.(h := c.sha256(p.h + data))
  }

  function Sealed(c: Crypto, p: Party, data: bytes): Option<(Party, bytes)> {
    if p.key.None? then Some((Hashed(c, p, data), data))
    else if p.nonce >= 0xffff_ffff_ffff_ffff then None
    else
      var sealed := c.seal(p.key.value, p.nonce, p.h, data);
      Some((Hashed(c, p.(nonce := p.nonce + 1), sealed), sealed))
  }

  function Unsealed(c: Crypto, p: Party, data: bytes): Option<(Party, bytes)> {
    if p.key.None? then Some((Hashed(c, p, data), data))
    else if p.nonce >= 0xffff_ffff_ffff_ffff || |data| < 16 then None
    else
      var plain := c.open(p.key.value, p.nonce, p.h, data);
      if plain.None? then None else Some((Hashed(c, p.(nonce := p.nonce + 1), data), plain.value))
  }

  // ---- tokens ----

  /** Which of its own private keys a party agrees with which public key of the other. */
  function Agrees(p: Party, token: Token): (Option<bytes>, Option<bytes>) {
    match token
    case EE => (p.e, p.re)
    case SS => (Some(p.s), p.rs)
    case ES => if p.initiator then (p.e, p.rs) else (Some(p.s), p.re)
    case SE => if p.initiator then (Some(p.s), p.re) else (p.e, p.rs)
    case _ => (None, None)
  }

  function Agreed(c: Crypto, p: Party, token: Token): Option<Party> {
    var (mine, theirs) := Agrees(p, token);
    if mine.None? || theirs.None? || |theirs.value| != 32 then None
    else
      var secret := c.agree(mine.value, theirs.value);
      if secret.None? then None else Some(Keyed(c, p, secret.value))
  }

  /** The tokens of a message written, then its payload; the bytes go on from `message`. */
  function Write(c: Crypto, p: Party, tokens: seq<Token>, ephemeral: bytes, payload: bytes, message: bytes)
    : Option<(Party, bytes)>
    decreases |tokens|
  {
    if tokens == [] then
      var r := Sealed(c, p, payload);
      if r.None? then None else Some((r.value.0, message + r.value.1))
    else
      match tokens[0]
      case E =>
        var public := c.publicOf(ephemeral);
        Write(c, Hashed(c, p.(e := Some(ephemeral)), public), tokens[1..], ephemeral, payload, message + public)
      case S =>
        var r := Sealed(c, p, c.publicOf(p.s));
        if r.None? then None else Write(c, r.value.0, tokens[1..], ephemeral, payload, message + r.value.1)
      case token =>
        var q := Agreed(c, p, token);
        if q.None? then None else Write(c, q.value, tokens[1..], ephemeral, payload, message)
  }

  /** The tokens read off the front of `message`, then the payload. */
  function Read(c: Crypto, p: Party, tokens: seq<Token>, message: bytes): Option<(Party, bytes)>
    decreases |tokens|
  {
    if tokens == [] then Unsealed(c, p, message)
    else
      match tokens[0]
      case E =>
        if |message| < 32 then None
        else Read(c, Hashed(c, p.(re := Some(message[..32])), message[..32]), tokens[1..], message[32..])
      case S =>
        var size := if p.key.Some? then 48 else 32;
        if |message| < size then None
        else
          var r := Unsealed(c, p, message[..size]);
          if r.None? then None else Read(c, r.value.0.(rs := Some(r.value.1)), tokens[1..], message[size..])
      case token =>
        var q := Agreed(c, p, token);
        if q.None? then None else Read(c, q.value, tokens[1..], message)
  }

  // ---- the hand-written handshake is IK ----

  /** A state of the handshake, seen as a party. */
  function AsParty(h: Handshake): Party {
    Party(h.role == Initiator, h.sym.chainingKey, h.sym.hash, h.sym.cipher.key, h.sym.cipher.nonce,
          h.local, h.localEphemeral, h.remoteStatic, h.remoteEphemeral)
  }

  function AsResult(o: Outcome): Option<(Party, bytes)> {
    if o.output.None? then None else Some((AsParty(o.state), o.output.value))
  }

  lemma HashStep(c: Crypto, h: Handshake, data: bytes)
    ensures AsParty(h.(sym := MixHash(c, h.sym, data))) == Hashed(c, AsParty(h), data)
  {
  }

  lemma SealStep(c: Crypto, h: Handshake, data: bytes)
    ensures var r := EncryptAndHash(c, h.sym, data);
      Sealed(c, AsParty(h), data)
        == if r.None? then None else Some((AsParty(h.(sym := r.value.0)), r.value.1))
  {
  }

  lemma UnsealStep(c: Crypto, h: Handshake, data: bytes)
    ensures var r := DecryptAndHash(c, h.sym, data);
      Unsealed(c, AsParty(h), data)
        == if r.None? then None else Some((AsParty(h.(sym := r.value.0)), r.value.1))
  {
  }

  lemma AgreeStep(c: Crypto, h: Handshake, token: Token, mine: bytes, theirs: bytes)
    requires Agrees(AsParty(h), token) == (Some(mine), Some(theirs))
    ensures var (s, mixed) := MixDh(c, h.sym, mine, theirs);
      Agreed(c, AsParty(h), token) == if mixed then Some(AsParty(h.(sym := s))) else None
  {
  }

  lemma Message1Written(c: Crypto, h: Handshake, ephemeral: bytes, payload: bytes)
    requires h.role == Initiator && h.remoteStatic.Some?
    ensures AsResult(WriteMessage1(c, h, ephemeral, payload)) == Write(c, AsParty(h), FIRST, ephemeral, payload, [])
  {
    hide Encrypt, Decrypt, Keyed, Sealed;
    var h1 := h.(localEphemeral := Some(ephemeral), sym := MixHash(c, h.sym, c.publicOf(ephemeral)));
    HashStep(c, h.(localEphemeral := Some(ephemeral)), c.publicOf(ephemeral));
    AgreeStep(c, h1, ES, ephemeral, h.remoteStatic.value);
    var (s2, es) := MixDh(c, h1.sym, ephemeral, h.remoteStatic.value);
    var h2 := h1.(sym := s2);
    assert FIRST[1..] == [ES, S, SS] && [ES, S, SS][1..] == [S, SS] && [S, SS][1..] == [SS] && [SS][1..] == [];
    assert [] + c.publicOf(ephemeral) == c.publicOf(ephemeral);
    if es {
      SealStep(c, h2, c.publicOf(h.local));
      var r := EncryptAndHash(c, s2, c.publicOf(h.local));
      if r.Some? {
        var h3 := h2.(sym := r.value.0);
        AgreeStep(c, h3, SS, h.local, h.remoteStatic.value);
        var (s4, ss) := MixDh(c, h3.sym, h.local, h.remoteStatic.value);
        if ss {
          SealStep(c, h3.(sym := s4), payload);
        }
      }
    }
  }

  lemma Message1Read(c: Crypto, h: Handshake, message: bytes)
    requires h.role == Responder && |message| >= 80
    ensures AsResult(ReadMessage1(c, h, message)) == Read(c, AsParty(h), FIRST, message)
  {
    hide Encrypt, Decrypt, Keyed, Unsealed;
    var re := message[..32];
    var h1 := h.(remoteEphemeral := Some(re), sym := MixHash(c, h.sym, re));
    HashStep(c, h.(remoteEphemeral := Some(re)), re);
    AgreeStep(c, h1, ES, h.local, re);
    var (s2, es) := MixDh(c, h1.sym, h.local, re);
    var h2 := h1.(sym := s2);
    assert FIRST[1..] == [ES, S, SS] && [ES, S, SS][1..] == [S, SS] && [S, SS][1..] == [SS] && [SS][1..] == [];
    assert message[32..][..48] == message[32..80] && message[32..][48..] == message[80..];
    if es {
      MixedHasKey(c, h1.sym, h.local, re);
      UnsealStep(c, h2, message[32..80]);
      var rs := DecryptAndHash(c, s2, message[32..80]);
      if rs.Some? {
        var h3 := h2.(sym := rs.value.0, remoteStatic := Some(rs.value.1));
        SameButStatic(h2, rs.value.0, rs.value.1);
        if |rs.value.1| == 32 {
          AgreeStep(c, h3, SS, h.local, rs.value.1);
        }
        var (s4, ss) := MixDh(c, h3.sym, h.local, rs.value.1);
        if ss {
          UnsealStep(c, h3.(sym := s4), message[80..]);
        }
      }
    }
  }

  lemma MixedHasKey(c: Crypto, s: Sym, local: bytes, remote: bytes)
    ensures MixDh(c, s, local, remote).1 ==> MixDh(c, s, local, remote).0.cipher.key.Some?
  {
  }

  lemma SameButStatic(h: Handshake, s: Sym, rs: bytes)
    ensures AsParty(h.(sym := s)).(rs := Some(rs)) == AsParty(h.(sym := s, remoteStatic := Some(rs)))
  {
  }

  lemma Message2Written(c: Crypto, h: Handshake, ephemeral: bytes, payload: bytes)
    requires h.role == Responder && h.remoteEphemeral.Some? && h.remoteStatic.Some?
    ensures AsResult(WriteMessage2(c, h, ephemeral, payload)) == Write(c, AsParty(h), SECOND, ephemeral, payload, [])
  {
    hide Encrypt, Decrypt, Keyed, Sealed;
    var h1 := h.(localEphemeral := Some(ephemeral), sym := MixHash(c, h.sym, c.publicOf(ephemeral)));
    HashStep(c, h.(localEphemeral := Some(ephemeral)), c.publicOf(ephemeral));
    AgreeStep(c, h1, EE, ephemeral, h.remoteEphemeral.value);
    var (s2, ee) := MixDh(c, h1.sym, ephemeral, h.remoteEphemeral.value);
    var h2 := h1.(sym := s2);
    assert SECOND[1..] == [EE, SE] && [EE, SE][1..] == [SE] && [SE][1..] == [];
    assert [] + c.publicOf(ephemeral) == c.publicOf(ephemeral);
    if ee {
      AgreeStep(c, h2, SE, ephemeral, h.remoteStatic.value);
      var (s3, se) := MixDh(c, s2, ephemeral, h.remoteStatic.value);
      if se {
        SealStep(c, h2.(sym := s3), payload);
      }
    }
  }

  lemma Message2Read(c: Crypto, h: Handshake, message: bytes)
    requires h.role == Initiator && h.localEphemeral.Some? && |message| >= 32
    ensures AsResult(ReadMessage2(c, h, message)) == Read(c, AsParty(h), SECOND, message)
  {
    hide Encrypt, Decrypt, Keyed, Unsealed;
    var re := message[..32];
    var h1 := h.(remoteEphemeral := Some(re), sym := MixHash(c, h.sym, re));
    HashStep(c, h.(remoteEphemeral := Some(re)), re);
    AgreeStep(c, h1, EE, h.localEphemeral.value, re);
    var (s2, ee) := MixDh(c, h1.sym, h.localEphemeral.value, re);
    var h2 := h1.(sym := s2);
    assert SECOND[1..] == [EE, SE] && [EE, SE][1..] == [SE] && [SE][1..] == [];
    if ee {
      AgreeStep(c, h2, SE, h.local, re);
      var (s3, se) := MixDh(c, s2, h.local, re);
      if se {
        UnsealStep(c, h2.(sym := s3), message[32..]);
      }
    }
  }

  // ---- before and after ----

  /** The protocol name as the initial hash, the prologue, and the responder's static key. */
  lemma StartsAsIK(c: Crypto, local: bytes, pinned: bytes, prologue: bytes)
    ensures var name := PROTOCOL_NAME + [0, 0, 0, 0];
      && |name| == 32
      && AsParty(InitInitiator(c, local, pinned, prologue)) ==
         Party(true, name, c.sha256(c.sha256(name + prologue) + pinned), None, 0, local, None, Some(pinned), None)
      && AsParty(InitResponder(c, local, prologue)) ==
         Party(false, name, c.sha256(c.sha256(name + prologue) + c.publicOf(local)), None, 0, local, None, None, None)
  {
    assert seq(4, i => 0) == [0, 0, 0, 0];
    assert KEY_BYTES - |PROTOCOL_NAME| == 4;
    assert Pad(PROTOCOL_NAME) == PROTOCOL_NAME + [0, 0, 0, 0];
  }

  /** The two transport keys come from the chaining key alone; the initiator sends with the first. */
  lemma SplitsAsSpecified(c: Crypto, h: Handshake)
    ensures var t := Split(c, h);
      var one, two := Cipher(Some(First(c, h.sym.chainingKey, [])), 0),
        Cipher(Some(Second(c, h.sym.chainingKey, [])), 0);
      && t.handshakeHash == h.sym.hash
      && (if h.role == Initiator then t.send == one && t.recv == two else t.send == two && t.recv == one)
  {
  }

  /** Neither message is written or read out of turn. */
  lemma OnlyInTurn(c: Crypto, h: Handshake, ephemeral: bytes, payload: bytes, message: bytes)
    ensures h.role != Initiator || h.remoteStatic.None? ==>
      WriteMessage1(c, h, ephemeral, payload) == Outcome(h, None)
    ensures h.role != Responder ==> ReadMessage1(c, h, message) == Outcome(h, None)
    ensures h.role != Responder || h.remoteEphemeral.None? || h.remoteStatic.None? ==>
      WriteMessage2(c, h, ephemeral, payload) == Outcome(h, None)
    ensures h.role != Initiator || h.localEphemeral.None? ==> ReadMessage2(c, h, message) == Outcome(h, None)
  {
  }
}
