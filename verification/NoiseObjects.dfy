/** The handshake as the source writes it: a cipher state inside a symmetric state inside a
  * handshake object, each updated in place, and errors that leave the work done so far. */
module NoiseObjects {
  import opened Prelude
  import opened Noise

  class CipherState {
    var key: Option<bytes>
    var nonce: nat

    function Now(): Cipher
      reads this
    {
      Cipher(key, nonce)
    }

    constructor ()
      ensures Now() == Cipher(None, 0)
    {
      key, nonce := None, 0;
    }

    method InitializeKey(k: bytes)
      modifies this
      ensures Now() == Cipher(Some(k), 0)
    {
      key, nonce := Some(k), 0;
    }

    method EncryptWithAd(c: Crypto, ad: bytes, plaintext: bytes) returns (r: Option<bytes>)
      modifies this
      ensures var e := Encrypt(c, old(Now()), ad, plaintext);
        if e.None? then r == None && Now() == old(Now()) else Now() == e.value.0 && r == Some(e.value.1)
    {
      if key.None? { return Some(plaintext); }
      if nonce >= MAX_NONCE { return None; }
      r := Some(c.seal(key.value, nonce, ad, plaintext));
      nonce := nonce + 1;
    }

    /** A failing decryption leaves key and nonce as they were. */
    method DecryptWithAd(c: Crypto, ad: bytes, data: bytes) returns (r: Option<bytes>)
      modifies this
      ensures var d := Decrypt(c, old(Now()), ad, data);
        if d.None? then r == None && Now() == old(Now()) else Now() == d.value.0 && r == Some(d.value.1)
    {
      if key.None? { return Some(data); }
      if |data| < TAG_BYTES { return None; }
      if nonce >= MAX_NONCE { return None; }
      r := c.open(key.value, nonce, ad, data);
      if r.Some? { nonce := nonce + 1; }
    }
  }

  class SymmetricState {
    const c: Crypto
    var chainingKey: bytes
    var hash: bytes
    const cipher: CipherState

    function Now(): Sym
      reads this, cipher
    {
      Sym(chainingKey, hash, cipher.Now())
    }

    constructor (c: Crypto)
      ensures this.c == c && Now() == InitSym(c) && fresh(cipher)
    {
      this.c := c;
      var h := if |PROTOCOL_NAME| <= KEY_BYTES then Pad(PROTOCOL_NAME) else c.sha256(PROTOCOL_NAME);
      hash, chainingKey := h, h;
      cipher := new CipherState();
    }

    method MixKeyWith(ikm: bytes)
      modifies this, cipher
      ensures Now() == MixKey(c, old(Now()), ikm)
    {
      var (next, temp) := Hkdf2(c, chainingKey, ikm);
      chainingKey := next;
      cipher.InitializeKey(temp);
    }

    method MixHashWith(data: bytes)
      modifies this
      ensures Now() == MixHash(c, old(Now()), data)
    {
      hash := c.sha256(hash + data);
    }

    method Seal(plaintext: bytes) returns (r: Option<bytes>)
      modifies this, cipher
      ensures var e := EncryptAndHash(c, old(Now()), plaintext);
        if e.None? then r == None && Now() == old(Now()) else Now() == e.value.0 && r == Some(e.value.1)
    {
      r := cipher.EncryptWithAd(c, hash, plaintext);
      if r.Some? { MixHashWith(r.value); }
    }

    method Unseal(ciphertext: bytes) returns (r: Option<bytes>)
      modifies this, cipher
      ensures var d := DecryptAndHash(c, old(Now()), ciphertext);
        if d.None? then r == None && Now() == old(Now()) else Now() == d.value.0 && r == Some(d.value.1)
    {
      r := cipher.DecryptWithAd(c, hash, ciphertext);
      if r.Some? { MixHashWith(ciphertext); }
    }

    /** `mixKey(dh(...))`: nothing is mixed when there is no shared secret. */
    method MixDhWith(local: bytes, remote: bytes) returns (mixed: bool)
      modifies this, cipher
      ensures (Now(), mixed) == MixDh(c, old(Now()), local, remote)
    {
      var secret := Dh(c, local, remote);
      if secret.None? { return false; }
      MixKeyWith(secret.value);
      mixed := true;
    }
  }

  class NoiseIKHandshake {
    const c: Crypto
    const sym: SymmetricState
    const role: Role
    const local: bytes
    var localEphemeral: Option<bytes>
    var remoteStatic: Option<bytes>
    var remoteEphemeral: Option<bytes>

    function Now(): Handshake
      reads this, sym, sym.cipher
    {
      Handshake(role, sym.Now(), local, localEphemeral, remoteStatic, remoteEphemeral)
    }

    ghost predicate Valid() {
      sym.c == c
    }

    constructor (c: Crypto, role: Role, local: bytes, pinned: bytes, prologue: bytes)
      ensures Valid() && this.c == c && fresh(sym) && fresh(sym.cipher)
      ensures Now() == if role == Initiator then InitInitiator(c, local, pinned, prologue)
        else InitResponder(c, local, prologue)
    {
      this.c, this.role, this.local := c, role, local;
      localEphemeral, remoteEphemeral := None, None;
      remoteStatic := if role == Initiator then Some(pinned) else None;
      sym := new SymmetricState(c);
      new;
      sym.MixHashWith(prologue);
      sym.MixHashWith(if role == Initiator then pinned else c.publicOf(local));
    }

    method SendMessage1(ephemeral: bytes, payload: bytes) returns (r: Option<bytes>)
      requires Valid()
      modifies this, sym, sym.cipher
      ensures Outcome(Now(), r) == WriteMessage1(c, old(Now()), ephemeral, payload)
    {
      if role != Initiator || remoteStatic.None? { return None; }
      localEphemeral := Some(ephemeral);
      sym.MixHashWith(c.publicOf(ephemeral));
      var es := sym.MixDhWith(ephemeral, remoteStatic.value);
      if !es { return None; }
      var encStatic := sym.Seal(c.publicOf(local));
      if encStatic.None? { return None; }
      var ss := sym.MixDhWith(local, remoteStatic.value);
      if !ss { return None; }
      var encPayload := sym.Seal(payload);
      if encPayload.None? { return None; }
      r := Some(c.publicOf(ephemeral) + encStatic.value + encPayload.value);
    }

    method ReceiveMessage1(message: bytes) returns (r: Option<bytes>)
      requires Valid()
      modifies this, sym, sym.cipher
      ensures Outcome(Now(), r) == ReadMessage1(c, old(Now()), message)
    {
      if role != Responder { return None; }
      var re := Slice(message, 0, KEY_BYTES);
      remoteEphemeral := Some(re);
      sym.MixHashWith(re);
      var es := sym.MixDhWith(local, re);
      if !es { return None; }
      var rs := sym.Unseal(Slice(message, KEY_BYTES, KEY_BYTES + KEY_BYTES + TAG_BYTES));
      if rs.None? { return None; }
      remoteStatic := rs;
      var ss := sym.MixDhWith(local, rs.value);
      if !ss { return None; }
      r := sym.Unseal(From(message, KEY_BYTES + KEY_BYTES + TAG_BYTES));
    }

    method SendMessage2(ephemeral: bytes, payload: bytes) returns (r: Option<bytes>)
      requires Valid()
      modifies this, sym, sym.cipher
      ensures Outcome(Now(), r) == WriteMessage2(c, old(Now()), ephemeral, payload)
    {
      if role != Responder || remoteEphemeral.None? || remoteStatic.None? { return None; }
      localEphemeral := Some(ephemeral);
      sym.MixHashWith(c.publicOf(ephemeral));
      var ee := sym.MixDhWith(ephemeral, remoteEphemeral.value);
      if !ee { return None; }
      var se := sym.MixDhWith(ephemeral, remoteStatic.value);
      if !se { return None; }
      var encPayload := sym.Seal(payload);
      if encPayload.None? { return None; }
      r := Some(c.publicOf(ephemeral) + encPayload.value);
    }

    method ReceiveMessage2(message: bytes) returns (r: Option<bytes>)
      requires Valid()
      modifies this, sym, sym.cipher
      ensures Outcome(Now(), r) == ReadMessage2(c, old(Now()), message)
    {
      if role != Initiator || localEphemeral.None? { return None; }
      var re := Slice(message, 0, KEY_BYTES);
      remoteEphemeral := Some(re);
      sym.MixHashWith(re);
      var ee := sym.MixDhWith(localEphemeral.value, re);
      if !ee { return None; }
      var se := sym.MixDhWith(local, re);
      if !se { return None; }
      r := sym.Unseal(From(message, KEY_BYTES));
    }

    method Finalize() returns (send: CipherState, recv: CipherState, handshakeHash: bytes)
      requires Valid()
      ensures fresh(send) && fresh(recv) && send != recv
      ensures Transport(send.Now(), recv.Now(), handshakeHash) == Split(c, Now())
    {
      var (k1, k2) := Hkdf2(c, sym.chainingKey, []);
      var c1 := new CipherState();
      c1.InitializeKey(k1);
      var c2 := new CipherState();
      c2.InitializeKey(k2);
      handshakeHash := sym.hash;
      if role == Initiator { send, recv := c1, c2; } else { send, recv := c2, c1; }
    }
  }
}
