/** Why a push that is let through ends with the file delivered. */
module BlobDelivery {
  import opened Prelude
  import opened ResumableBlob
  import opened BlobSafety
  import opened BlobResults
  import opened BlobAnswers

  // ---- nothing gets in the way of a publication ----

  /** No published name of the content holds anything else. */
  ghost predicate Clear(cfg: Config, published: map<Path, bytes>, key: Key) {
    forall name :: Free(cfg, published, name, key)
  }

  lemma {:induction false} DisconnectPublishes(w: World, peer: string, order: seq<nat>, v: World)
    requires v in DisconnectTrace(w, peer, order)
    ensures v.published == w.published
    decreases order
  {
    if order != [] && v !in SuspendTrace(w, peer, order[0]) {
      DisconnectPublishes(Suspended(w, peer, order[0]), peer, order[1..], v);
    }
  }

  lemma OtherPublishes(cfg: Config, w: World, ev: Event, v: World)
    requires v in Op(cfg, w, ev).trace && !ev.Finish? && !ev.RemoveFile?
    ensures v.published == w.published
  {
    match ev
    case Begin(peer, sha, size, token, name) => BeginPublishes(cfg, w, peer, sha, size, token, name, v);
    case Chunk(peer, env) => ChunkPublishes(w, peer, env, v);
    case Cancel(peer, sha, size, token, partFirst) =>
    case Disconnect(peer, order) => DisconnectPublishes(w, peer, order, v);
  }

  lemma ChunkPublishes(w: World, peer: string, env: Envelope, v: World)
    requires v in ChunkOp(w, peer, env).trace
    ensures v.published == w.published
  {
    hide WriteAt, Acceptable, CommitDue;
  }

  lemma BeginPublishes(cfg: Config, w: World, peer: string, sha: string, size: int, token: Option<string>, name: string,
                       v: World)
    requires v in BeginOp(cfg, w, peer, sha, size, token, name).trace
    ensures v.published == w.published
  {
    BeginWorlds(cfg, w, peer, sha, size, token, name, v);
    hide BeginOp, ValidSidecar, Admissible;
  }

  lemma CompletePublishes(cfg: Config, w: World, id: nat, v: World)
    requires id in w.transfers && w.transfers[id].state.key in w.folders && v in CompleteTrace(cfg, w, id)
    ensures var path := cfg.destination(w.transfers[id].state.name, w.transfers[id].state.key);
      v.published == w.published || (Ready(cfg, w, id) && v.published == w.published[path := Received(w, id)])
  {
    ReadyCompletes(cfg, w, id);
    hide Publishable, Ready;
  }

  /** A finish publishes at most its own file, under a name of its own content. */
  lemma FinishPublishesOne(cfg: Config, w: World, peer: string, id: nat, v: World)
    requires Inv(cfg, w) && v in FinishOp(cfg, w, peer, id).trace && v.published != w.published
    ensures id in w.transfers && w.transfers[id].state.key in w.folders
    ensures var t := w.transfers[id]; var data := Received(w, id);
      && |data| == t.state.key.size && cfg.hash(data) == t.state.key.sha
      && v.published == w.published[cfg.destination(t.state.name, t.state.key) := data]
  {
    assert Usable(w, peer, id);
    PairOf(cfg, w, id);
    hide Inv;
    var t := w.transfers[id];
    assert w.folders[t.state.key := w.folders[t.state.key]] == w.folders;
    assert ForgetResult(w, id) == Forgetful(w, id);
    assert v in CompleteTrace(cfg, Forgetful(w, id), id) by { hide CompleteTrace; }
    CompletePublishes(cfg, Forgetful(w, id), id, v);
    hide CompleteTrace, Completes;
    assert Received(Forgetful(w, id), id) == Received(w, id);
  }

  lemma OpClear(cfg: Config, w: World, ev: Event, v: World, key: Key)
    requires Inv(cfg, w) && DistinctNames(cfg) && v in Op(cfg, w, ev).trace && Clear(cfg, w.published, key)
    ensures Clear(cfg, v.published, key)
  {
    if ev.Finish? {
      if v.published != w.published {
        FinishPublishesOne(cfg, w, ev.peer, ev.id, v);
        hide Inv;
        forall name ensures Free(cfg, v.published, name, key) {
          assert Free(cfg, w.published, name, key);
        }
      }
    } else if ev.RemoveFile? {
      forall name ensures Free(cfg, v.published, name, key) {
        assert Free(cfg, w.published, name, key);
      }
    } else {
      OtherPublishes(cfg, w, ev, v);
    }
  }

  /** Whatever the receiver does, undisturbed, failing or cut short, the way stays clear. */
  lemma StepClear(cfg: Config, w: World, step: Step, w': World, key: Key)
    requires Good(cfg, w) && DistinctNames(cfg) && Next(cfg, w, step, w') && Clear(cfg, w.published, key)
    ensures Clear(cfg, w'.published, key)
  {
    hide Clear, Inv;
    var trace := Op(cfg, w, step.ev).trace;
    match step
    case Complete(ev) =>
      assert trace[|trace| - 1] in trace;
      OpClear(cfg, w, ev, trace[|trace| - 1], key);
    case Fault(ev, at, written) =>
      assert trace[at] in trace;
      OpClear(cfg, w, ev, trace[at], key);
    case Crash(ev, at, after) =>
      assert trace[at] in trace;
      OpClear(cfg, w, ev, trace[at], key);
  }

  // ---- a file that is all there is published ----

  lemma WholeFile(cfg: Config, w: World, id: nat, source: bytes)
    requires Inv(cfg, w) && id in w.transfers && !w.transfers[id].failed
    requires var key := w.transfers[id].state.key;
      && w.transfers[id].received == key.size == |source|
      && cfg.source.Some? && cfg.source.value(key) == source && cfg.hash(source) == key.sha
    ensures w.transfers[id].state.key in w.folders && Received(w, id) == source
  {
    PairOf(cfg, w, id);
    var data := Received(w, id);
    assert data[..w.transfers[id].received] == data;
  }

  /** With nothing in the way, a finish of the whole file is answered with a receipt. */
  lemma FinishDelivers(cfg: Config, w: World, peer: string, id: nat, source: bytes)
    requires Inv(cfg, w) && Usable(w, peer, id) && Clear(cfg, w.published, w.transfers[id].state.key)
    requires var key := w.transfers[id].state.key;
      && w.transfers[id].received == key.size == |source|
      && cfg.source.Some? && cfg.source.value(key) == source && cfg.hash(source) == key.sha
    ensures FinishOp(cfg, w, peer, id).reply.Receipt?
  {
    WholeFile(cfg, w, id, source);
    var result := w.transfers[id].state.result;
    assert Free(cfg, w.published, w.transfers[id].state.name, w.transfers[id].state.key);
    hide Clear;
    if result.None? || result.value !in w.published {
      FinishPublishes(cfg, w, peer, id);
    } else {
      FinishRepeats(cfg, w, peer, id);
    }
    hide Inv, FinishOp;
  }

  // ---- how many exchanges a file takes ----

  /** Chunks left to send. */
  function ChunksLeft(size: nat, offset: nat): nat
    requires offset <= size
  {
    (size - offset + CHUNK_BYTES - 1) / CHUNK_BYTES
  }

  /** Chunks, a barrier after every four of them and after the last, and the finish; `sent` chunks of
    * the window that is open have been sent. */
  function TurnsLeft(size: nat, offset: nat, sent: nat): nat
    requires offset <= size
  {
    var chunks := ChunksLeft(size, offset);
    chunks + (chunks + sent + WINDOW_CHUNKS - 1) / WINDOW_CHUNKS + 1
  }

  /** The begin and everything after it. */
  function TurnsFor(size: nat): nat {
    1 + TurnsLeft(size, 0, 0)
  }

  /** In numbers: one exchange for every 256 KiB, one for every MiB, the begin and the finish. */
  lemma TurnsForIs(size: nat)
    ensures TurnsFor(size) == 2 + (size + 262143) / 262144 + (size + 1048575) / 1048576
  {
    var chunks := (size + 262143) / 262144;
    var windows := (size + 1048575) / 1048576;
    assert size <= 262144 * chunks < size + 262144 && size <= 1048576 * windows < size + 1048576;
    assert 4 * windows - 4 < chunks <= 4 * windows;
  }

  lemma ChunkTurn(size: nat, offset: nat, sent: nat)
    requires offset < size
    ensures TurnsLeft(size, offset, sent) == 1 + TurnsLeft(size, Min(offset + CHUNK_BYTES, size), sent + 1)
  {
    var left := size - offset;
    if left > CHUNK_BYTES {
      assert (left + CHUNK_BYTES - 1) / CHUNK_BYTES == (left - 1) / CHUNK_BYTES + 1;
    } else {
      assert ChunksLeft(size, offset) == 1 && ChunksLeft(size, size) == 0;
    }
  }

  /** A window is closed after four chunks, or at the end of the file. */
  lemma BarrierTurn(size: nat, offset: nat, sent: nat)
    requires offset <= size && 0 < sent <= WINDOW_CHUNKS && (sent == WINDOW_CHUNKS || offset == size)
    ensures TurnsLeft(size, offset, sent) == 1 + TurnsLeft(size, offset, 0)
  {
    if sent < WINDOW_CHUNKS {
      assert ChunksLeft(size, offset) == 0;
    }
  }

  lemma ResumedTurns(size: nat, offset: nat)
    requires offset <= size
    ensures 1 + TurnsLeft(size, offset, 0) <= TurnsFor(size)
  {
    assert ChunksLeft(size, offset) <= ChunksLeft(size, 0);
  }
}
