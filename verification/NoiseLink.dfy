/** Transport after the handshake: frames sent in each direction, delivered in order, with any
  * number of frames that fail to authenticate in between. */
module NoiseLink {
  import opened Prelude
  import opened Noise

  /** One direction: both ends, the frames in flight, and what was sent, read and sealed so far. */
  datatype Direction = Direction(send: Cipher, recv: Cipher, wire: seq<bytes>, sent: seq<bytes>, got: seq<bytes>,
                                 used: seq<(bytes, nat)>)

  datatype Event = Send(plaintext: bytes) | Deliver | Inject(frame: bytes)

  function Open(send: Cipher, recv: Cipher): Direction {
    Direction(send, recv, [], [], [], [])
  }

  /** An exhausted sender and a frame that does not open change nothing. */
  function Step(c: Crypto, d: Direction, ev: Event): Direction {
    match ev
    case Send(plaintext) =>
      var r := Encrypt(c, d.send, [], plaintext);
      if r.None? || d.send.key.None? then d
      else d.(send := r.value.0, wire := d.wire + [r.value.1], sent := d.sent + [plaintext],
              used := d.used + [(d.send.key.value, d.send.nonce)])
    case Deliver =>
      if d.wire == [] then d
      else
        var r := Decrypt(c, d.recv, [], d.wire[0]);
        if r.None? then d.(wire := d.wire[1..])
        else d.(recv := r.value.0, wire := d.wire[1..], got := d.got + [r.value.1])
    case Inject(frame) =>
      var r := Decrypt(c, d.recv, [], frame);
      if r.None? then d else d.(recv := r.value.0, got := d.got + [r.value.1])
  }

  function Run(c: Crypto, d: Direction, events: seq<Event>): Direction
    decreases |events|
  {
    if events == [] then d else Step(c, Run(c, d, events[..|events| - 1]), events[|events| - 1])
  }

  /** Injected frames do not authenticate at the moment they arrive: nobody forges a tag. */
  predicate Unforged(c: Crypto, d: Direction, events: seq<Event>)
    decreases |events|
  {
    events == [] ||
    var front := events[..|events| - 1];
    var last := events[|events| - 1];
    && Unforged(c, d, front)
    && (last.Inject? ==> Decrypt(c, Run(c, d, front).recv, [], last.frame).None?)
  }

  /** In step: the frames in flight are the sealed tail of what was sent. */
  predicate InStep(c: Crypto, d: Direction) {
    && d.send.key.Some? && d.send.key == d.recv.key
    && d.recv.nonce == |d.got| && d.send.nonce == |d.sent| == |d.got| + |d.wire| <= MAX_NONCE
    && d.got == d.sent[..|d.got|]
    && (forall i :: 0 <= i < |d.wire| ==> d.wire[i] == c.seal(d.send.key.value, |d.got| + i, [], d.sent[|d.got| + i]))
    && |d.used| == |d.sent|
    && (forall i :: 0 <= i < |d.used| ==> d.used[i] == (d.send.key.value, i))
  }

  lemma StepInStep(c: Crypto, d: Direction, ev: Event)
    requires Lawful(c) && InStep(c, d)
    requires ev.Inject? ==> Decrypt(c, d.recv, [], ev.frame).None?
    ensures InStep(c, Step(c, d, ev)) && Step(c, d, ev).send.key == d.send.key
    ensures ev.Deliver? && d.wire != [] ==> Step(c, d, ev).got == d.got + [d.sent[|d.got|]]
  {
    if ev.Deliver? && d.wire != [] {
      assert c.open(d.send.key.value, |d.got|, [], d.wire[0]) == Some(d.sent[|d.got|]);
      assert |d.wire[0]| == |d.sent[|d.got|]| + TAG_BYTES;
      hide Lawful;
    } else {
      hide Lawful;
    }
  }

  lemma {:induction false} RunInStep(c: Crypto, send: Cipher, recv: Cipher, events: seq<Event>)
    requires Lawful(c) && send == recv && send.key.Some? && send.nonce == 0
    requires Unforged(c, Open(send, recv), events)
    ensures InStep(c, Run(c, Open(send, recv), events)) && Run(c, Open(send, recv), events).send.key == send.key
    decreases |events|
  {
    if events != [] {
      RunInStep(c, send, recv, events[..|events| - 1]);
      StepInStep(c, Run(c, Open(send, recv), events[..|events| - 1]), events[|events| - 1]);
    }
  }

  /** Over a link whose ends hold crossed keys, whatever is read is what was sent, in order, and a
    * delivery never fails; no nonce is used twice under the direction's key. */
  lemma InOrderDelivery(c: Crypto, t: Transport, peer: Transport, events: seq<Event>)
    requires Lawful(c) && t.send == peer.recv && t.send.key.Some? && t.send.nonce == 0
    requires Unforged(c, Open(t.send, peer.recv), events)
    ensures var d := Run(c, Open(t.send, peer.recv), events);
      && d.got <= d.sent && |d.sent| == |d.got| + |d.wire|
      && (d.wire != [] ==> Step(c, d, Deliver).got == d.sent[..|d.got| + 1])
      && (forall i, j :: 0 <= i < j < |d.used| ==> d.used[i] != d.used[j])
  {
    RunInStep(c, t.send, peer.recv, events);
    var d := Run(c, Open(t.send, peer.recv), events);
    StepInStep(c, d, Deliver);
    if d.wire != [] {
      assert d.sent[..|d.got| + 1] == d.sent[..|d.got|] + [d.sent[|d.got|]];
    }
  }

  /** Across both directions a nonce repeats under one key only if key derivation gave the two
    * directions the same key. */
  lemma NoncesAcrossDirections(c: Crypto, i: Transport, r: Transport, there: seq<Event>, back: seq<Event>, m: nat,
                               n: nat)
    requires Lawful(c) && i.send == r.recv && r.send == i.recv
    requires i.send.key.Some? && r.send.key.Some? && i.send.nonce == r.send.nonce == 0
    requires Unforged(c, Open(i.send, r.recv), there) && Unforged(c, Open(r.send, i.recv), back)
    requires m < |Run(c, Open(i.send, r.recv), there).used| && n < |Run(c, Open(r.send, i.recv), back).used|
    ensures Run(c, Open(i.send, r.recv), there).used[m] == Run(c, Open(r.send, i.recv), back).used[n]
      <==> (i.send.key == r.send.key && m == n)
  {
    RunInStep(c, i.send, r.recv, there);
    RunInStep(c, r.send, i.recv, back);
  }

  /** A frame of the exact announced size: sizing a frame does not consume a nonce. */
  lemma WireSize(c: Crypto, s: Cipher, plaintext: bytes)
    requires Lawful(c) && s.key.Some? && Encrypt(c, s, [], plaintext).Some?
    ensures |Encrypt(c, s, [], plaintext).value.1| == |plaintext| + TAG_BYTES
  {
    assert |c.seal(s.key.value, s.nonce, [], plaintext)| == |plaintext| + TAG_BYTES;
  }
}
