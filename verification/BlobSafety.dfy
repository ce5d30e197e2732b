/** What every step of the receiver keeps, through crashes, failing calls and restarts. */
module BlobSafety {
  import opened Prelude
  import opened ResumableBlob

  /** The recursive removal of a cancelled folder was cut short after the data went. */
  predicate Torn(f: Folder) {
    f.part == EMPTY_FILE && f.sidecar.Some? && f.sidecar.value.committed > 0
  }

  /** A recorded result names a complete file; while that file exists it has the right bytes. */
  predicate ResultOk(cfg: Config, published: map<Path, bytes>, s: Sidecar) {
    s.result.Some? ==>
      && s.committed == s.key.size
      && s.result.value == cfg.destination(s.name, s.key)
      && (s.result.value in published ==> Matches(cfg, published[s.result.value], s.key))
  }

  predicate SidecarOk(cfg: Config, published: map<Path, bytes>, key: Key, s: Sidecar) {
    ValidSidecar(s, key) && ResultOk(cfg, published, s)
  }

  predicate FileOk(f: File) {
    f.synced <= |f.data| <= f.extent
  }

  predicate FolderOk(cfg: Config, published: map<Path, bytes>, key: Key, f: Folder) {
    && FileOk(f.part)
    && (f.sidecar.Some? ==>
          && SidecarOk(cfg, published, key, f.sidecar.value)
          && (Torn(f) || DurableOk(cfg, key, f.sidecar.value.committed, f.part)))
  }

  /** Nothing of the data differs from what honest senders of the key hold. */
  predicate Prefix(cfg: Config, key: Key, data: bytes) {
    cfg.source.Some? ==> data <= cfg.source.value(key)
  }

  /** The committed bytes survive a crash, and they are the first bytes of the source. */
  predicate DurableOk(cfg: Config, key: Key, committed: nat, part: File) {
    committed <= part.synced <= |part.data| && Prefix(cfg, key, part.data[..committed])
  }

  /** The memory of a transfer runs ahead of its sidecar, never ahead of the synced bytes. */
  predicate TransferOk(cfg: Config, published: map<Path, bytes>, t: Transfer, f: Folder) {
    && SidecarOk(cfg, published, t.state.key, t.state)
    && f.sidecar.Some?
    && f.sidecar.value.name == t.state.name
    && f.sidecar.value.committed <= t.state.committed <= f.part.synced
    && t.state.committed <= t.received <= |f.part.data|
    && Prefix(cfg, t.state.key, f.part.data[..t.received])
    && (!t.failed ==> t.received == |f.part.data|)
    && t.received <= t.state.key.size
    && (t.received == t.state.key.size || t.received % CHUNK_BYTES == 0)
    && t.received <= t.state.committed + COMMIT_BYTES
  }

  predicate Exclusive(transfers: map<nat, Transfer>) {
    forall a, b :: a in transfers && b in transfers && transfers[a].state.key == transfers[b].state.key ==> a == b
  }

  predicate Inv(cfg: Config, w: World) {
    && (forall k :: k in w.folders ==> FolderOk(cfg, w.published, k, w.folders[k]))
    && (forall id :: id in w.transfers ==>
          && id < w.nextId
          && w.transfers[id].state.key in w.folders
          && TransferOk(cfg, w.published, w.transfers[id], w.folders[w.transfers[id].state.key]))
    && Exclusive(w.transfers)
  }

  /** A chunk that will be accepted carries its stretch of the source. */
  predicate HonestChunk(cfg: Config, t: Transfer, env: Envelope) {
    cfg.source.Some? && Acceptable(t, env) ==>
      && |cfg.source.value(t.state.key)| == t.state.key.size
      && env.data == cfg.source.value(t.state.key)[t.received..t.received + |env.data|]
  }

  predicate Honest(cfg: Config, w: World, ev: Event) {
    ev.Chunk? && ev.env.id in w.transfers ==> HonestChunk(cfg, w.transfers[ev.env.id], ev.env)
  }

  /** Published names of different contents differ: the 16 hex digits of the key do not collide. */
  ghost predicate DistinctNames(cfg: Config) {
    forall n, k, n', k' :: cfg.destination(n, k) == cfg.destination(n', k') ==> k == k'
  }

  // ---- one effect at a time ----

  /** One transfer and the folder of its key are replaced by good ones. */
  predicate PairOk(cfg: Config, published: map<Path, bytes>, t: Transfer, f: Folder) {
    FolderOk(cfg, published, t.state.key, f) && TransferOk(cfg, published, t, f)
  }

  lemma PairKept(cfg: Config, w: World, id: nat, t: Transfer, f: Folder)
    requires Inv(cfg, w) && id in w.transfers && t.state.key == w.transfers[id].state.key
    requires PairOk(cfg, w.published, t, f)
    ensures Inv(cfg, WithPair(w, id, t, f))
  {
  }

  /** A folder nobody has open is replaced by a good one. */
  lemma FolderKept(cfg: Config, w: World, key: Key, f: Folder)
    requires Inv(cfg, w) && !InUse(w, key) && FolderOk(cfg, w.published, key, f)
    ensures Inv(cfg, WithFolder(w, key, f))
  {
  }

  /** Closing transfers loses nothing, whatever is closed. */
  lemma ClosingKept(cfg: Config, w: World, v: World)
    requires Inv(cfg, w) && v == w.(transfers := v.transfers)
    requires forall id :: id in v.transfers ==> id in w.transfers && v.transfers[id] == w.transfers[id]
    ensures Inv(cfg, v)
  {
  }

  /** Opening a transfer at the committed offset of a folder nobody has open. */
  lemma AdmitKept(cfg: Config, w: World, state: Sidecar)
    requires Inv(cfg, w) && state.key in w.folders && w.folders[state.key].sidecar == Some(state)
    requires |w.folders[state.key].part.data| == state.committed <= w.folders[state.key].part.synced
    requires !InUse(w, state.key)
    ensures Inv(cfg, w.(transfers := w.transfers[w.nextId := Transfer(state, state.committed, false)],
                        nextId := w.nextId + 1))
  {
    assert FolderOk(cfg, w.published, state.key, w.folders[state.key]);
    assert state.committed % CHUNK_BYTES == 0 || state.committed == state.key.size;
  }

  // ---- one operation at a time ----

  predicate AllInv(cfg: Config, trace: seq<World>) {
    forall v :: v in trace ==> Inv(cfg, v)
  }

  /** Sync, advance in memory, persist: good after each. */
  lemma CommitPairs(cfg: Config, published: map<Path, bytes>, t: Transfer, f: Folder)
    requires PairOk(cfg, published, t, f) && !t.failed && t.state.result.None?
    requires Aligned(t.received, t.state.key.size)
    ensures var f1 := f.(part := Sync(f.part)); var state := t.state.(committed := t.received);
      && PairOk(cfg, published, t, f1)
      && PairOk(cfg, published, t.(state := state), f1)
      && PairOk(cfg, published, t.(state := state), f1.(sidecar := Some(state)))
  {
  }

  lemma CommitKept(cfg: Config, w: World, id: nat)
    requires Inv(cfg, w) && id in w.transfers && !w.transfers[id].failed
    requires Aligned(w.transfers[id].received, w.transfers[id].state.key.size)
    requires w.transfers[id].state.result.None?
    ensures w.transfers[id].state.key in w.folders
    ensures AllInv(cfg, CommitTrace(w, id))
  {
    var t := w.transfers[id];
    var f := w.folders[t.state.key];
    var f1 := f.(part := Sync(f.part));
    var t1 := t.(state := t.state.(committed := t.received));
    CommitPairs(cfg, w.published, t, f);
    PairKept(cfg, w, id, t, f1);
    PairKept(cfg, w, id, t1, f1);
    PairKept(cfg, w, id, t1, f1.(sidecar := Some(t1.state)));
  }

  /** Truncate to the committed offset, then persist: good after each, and ready to open. */
  lemma OpenFolders(cfg: Config, published: map<Path, bytes>, f: Folder, state: Sidecar)
    requires FolderOk(cfg, published, state.key, f) && SidecarOk(cfg, published, state.key, state)
    requires state.committed <= |f.part.data|
    requires if f.sidecar.Some? then f.sidecar.value.committed == state.committed else state.committed == 0
    ensures var f1 := f.(part := Truncate(f.part, state.committed));
      && FolderOk(cfg, published, state.key, f1)
      && FolderOk(cfg, published, state.key, f1.(sidecar := Some(state)))
      && |f1.part.data| == state.committed <= f1.part.synced
  {
  }

  lemma OpenKept(cfg: Config, w: World, state: Sidecar)
    requires Inv(cfg, w) && !InUse(w, state.key) && state.key in w.folders
    requires SidecarOk(cfg, w.published, state.key, state) && state.committed <= |w.folders[state.key].part.data|
    requires var found := w.folders[state.key].sidecar;
      if found.Some? then found.value.committed == state.committed else state.committed == 0
    ensures AllInv(cfg, OpenTrace(w, state))
  {
    var f := w.folders[state.key];
    OpenFolders(cfg, w.published, f, state);
    var f1 := f.(part := Truncate(f.part, state.committed));
    FolderKept(cfg, w, state.key, f1);
    FolderKept(cfg, w, state.key, f1.(sidecar := Some(state)));
    AdmitKept(cfg, WithFolder(w, state.key, f1.(sidecar := Some(state))), state);
  }

  /** The worlds a begin can pass through. */
  lemma BeginWorlds(cfg: Config, w: World, peer: string, sha: string, size: int, token: Option<string>, name: string,
                    v: World)
    requires v in BeginOp(cfg, w, peer, sha, size, token, name).trace
    ensures v == w ||
      (&& Admissible(cfg, w, peer, sha, size, token)
       && var key := Key(peer, sha, size);
       var w1 := EnsureFolder(w, key);
       var w2, stored := CloseKey(w1, key), StoredState(w1.folders[key], key, token, name);
       v == w1 || v == w2
       || (ValidSidecar(stored, key) && stored.committed <= |w2.folders[key].part.data|
         && v in OpenTrace(w2, stored.(token := token))))
  {
    hide OpenTrace, ValidSidecar, Admissible;
  }

  lemma EnsureKept(cfg: Config, w: World, key: Key)
    requires Inv(cfg, w)
    ensures Inv(cfg, EnsureFolder(w, key))
  {
    if key !in w.folders { FolderKept(cfg, w, key, Folder(None, EMPTY_FILE)); }
  }

  lemma ReopenKept(cfg: Config, w: World, key: Key, token: Option<string>, name: string)
    requires Inv(cfg, w) && !InUse(w, key) && key in w.folders
    requires var stored := StoredState(w.folders[key], key, token, name);
      ValidSidecar(stored, key) && stored.committed <= |w.folders[key].part.data|
    ensures AllInv(cfg, OpenTrace(w, StoredState(w.folders[key], key, token, name).(token := token)))
  {
    assert FolderOk(cfg, w.published, key, w.folders[key]);
    OpenKept(cfg, w, StoredState(w.folders[key], key, token, name).(token := token));
  }

  lemma BeginKept(cfg: Config, w: World, peer: string, sha: string, size: int, token: Option<string>, name: string)
    requires Inv(cfg, w)
    ensures AllInv(cfg, BeginOp(cfg, w, peer, sha, size, token, name).trace)
  {
    forall v | v in BeginOp(cfg, w, peer, sha, size, token, name).trace ensures Inv(cfg, v) {
      hide BeginOp, OpenTrace, Inv, ValidSidecar;
      BeginWorlds(cfg, w, peer, sha, size, token, name, v);
      if v != w {
        var key := Key(peer, sha, size);
        var w1 := EnsureFolder(w, key);
        var w2 := CloseKey(w1, key);
        EnsureKept(cfg, w, key);
        ClosingKept(cfg, w1, w2);
        if v != w1 && v != w2 {
          ReopenKept(cfg, w2, key, token, name);
        }
      }
    }
  }

  /** Between operations a transfer that has not failed has less than a window uncommitted. */
  predicate Settled(w: World) {
    forall id :: id in w.transfers ==> SettledTransfer(w.transfers[id])
  }

  predicate SettledTransfer(t: Transfer) {
    t.failed || t.received == t.state.key.size || t.received < t.state.committed + COMMIT_BYTES
  }

  lemma PairOf(cfg: Config, w: World, id: nat)
    requires Inv(cfg, w) && id in w.transfers
    ensures w.transfers[id].state.key in w.folders
    ensures PairOk(cfg, w.published, w.transfers[id], w.folders[w.transfers[id].state.key])
  {
  }

  /** The transfer a chunk leaves, before any commit, and its folder. */
  lemma ChunkPair(cfg: Config, w: World, peer: string, env: Envelope)
    requires Inv(cfg, w) && Settled(w) && Honest(cfg, w, Chunk(peer, env)) && |ChunkOp(w, peer, env).trace| > 1
    ensures var v := ChunkOp(w, peer, env).trace[1];
      && Owned(w, peer, env.id) && env.id in v.transfers
      && v.transfers[env.id].state.key == w.transfers[env.id].state.key
      && v.transfers[env.id].state.key in v.folders
      && v == WithPair(w, env.id, v.transfers[env.id], v.folders[v.transfers[env.id].state.key])
      && PairOk(cfg, w.published, v.transfers[env.id], v.folders[v.transfers[env.id].state.key])
  {
    PairOf(cfg, w, env.id);
    var t := w.transfers[env.id];
    if Acceptable(t, env) {
      AppendPair(cfg, w.published, t, w.folders[t.state.key], env);
    }
  }

  lemma ChunkCommits(cfg: Config, w: World, peer: string, env: Envelope)
    requires Inv(cfg, w) && Settled(w) && Honest(cfg, w, Chunk(peer, env)) && |ChunkOp(w, peer, env).trace| > 2
    ensures var v := ChunkOp(w, peer, env).trace[1];
      && env.id in v.transfers && !v.transfers[env.id].failed && v.transfers[env.id].state.result.None?
      && Aligned(v.transfers[env.id].received, v.transfers[env.id].state.key.size)
      && v.transfers[env.id].state.key in v.folders
      && ChunkOp(w, peer, env).trace == [w, v] + CommitTrace(v, env.id)
  {
    PairOf(cfg, w, env.id);
    var t := w.transfers[env.id];
    AppendPair(cfg, w.published, t, w.folders[t.state.key], env);
    hide CommitTrace, Inv, PairOk;
  }

  lemma ChunkKept(cfg: Config, w: World, peer: string, env: Envelope)
    requires Inv(cfg, w) && Settled(w) && Honest(cfg, w, Chunk(peer, env))
    ensures AllInv(cfg, ChunkOp(w, peer, env).trace)
  {
    var trace := ChunkOp(w, peer, env).trace;
    ChunkStarts(w, peer, env);
    hide ChunkOp, Inv, PairOk, CommitTrace;
    if |trace| > 1 {
      ChunkPair(cfg, w, peer, env);
      PairKept(cfg, w, env.id, trace[1].transfers[env.id], trace[1].folders[trace[1].transfers[env.id].state.key]);
      if |trace| > 2 {
        ChunkCommits(cfg, w, peer, env);
        CommitKept(cfg, trace[1], env.id);
      }
    }
  }

  lemma ChunkStarts(w: World, peer: string, env: Envelope)
    ensures ChunkOp(w, peer, env).trace[0] == w
  {
  }

  /** Chunks are whole except the last one, so four of them reach exactly the commit boundary. */
  lemma AppendPair(cfg: Config, published: map<Path, bytes>, t: Transfer, f: Folder, env: Envelope)
    requires PairOk(cfg, published, t, f) && !t.failed && SettledTransfer(t)
    requires Acceptable(t, env) && HonestChunk(cfg, t, env)
    ensures var t1 := t.(received := t.received + |env.data|);
      && PairOk(cfg, published, t1, f.(part := WriteAt(f.part, t.received, env.data)))
      && (if CommitDue(t1) then Aligned(t1.received, t1.state.key.size) else SettledTransfer(t1))
  {
    AppendOffsets(t, env);
    var part := WriteAt(f.part, t.received, env.data);
    assert part.data == f.part.data[..t.received] + env.data;
    assert part.data[..t.state.committed] == f.part.data[..t.received][..t.state.committed];
    assert part.data[..t.received + |env.data|] == part.data;
  }

  lemma AppendOffsets(t: Transfer, env: Envelope)
    requires Acceptable(t, env) && t.state.committed <= t.received < t.state.committed + COMMIT_BYTES
    requires Aligned(t.state.committed, t.state.key.size) && t.state.committed <= t.state.key.size
    ensures var r := t.received + |env.data|; var size := t.state.key.size;
      && r <= size && (r == size || r % CHUNK_BYTES == 0) && r <= t.state.committed + COMMIT_BYTES
      && (if CommitDue(t.(received := r)) then Aligned(r, size) else r < t.state.committed + COMMIT_BYTES)
  {
    var q := t.state.committed / COMMIT_BYTES;
    assert t.state.committed == q * COMMIT_BYTES;
    hide Acceptable;
    NextOffset(q, env.index, t.state.key.size, |env.data|);
    WholeChunks(env.index + 1);
    WholeCommits(q + 1);
  }

  /** Chunk `i` follows `q` whole commits, with less than a commit in between. */
  lemma NextOffset(q: nat, i: nat, size: nat, length: nat)
    requires q * COMMIT_BYTES <= i * CHUNK_BYTES < q * COMMIT_BYTES + COMMIT_BYTES
    requires i * CHUNK_BYTES < size && length == Min(CHUNK_BYTES, size - i * CHUNK_BYTES)
    ensures var r := i * CHUNK_BYTES + length;
      && r <= size && (r == size || r == (i + 1) * CHUNK_BYTES) && r <= (q + 1) * COMMIT_BYTES
  {
    var d := i - WINDOW_CHUNKS * q;
    assert 0 <= d * CHUNK_BYTES < WINDOW_CHUNKS * CHUNK_BYTES;
    assert 0 <= d < WINDOW_CHUNKS;
  }

  lemma WholeChunks(i: nat)
    ensures i * CHUNK_BYTES % CHUNK_BYTES == 0
  {
  }

  lemma WholeCommits(q: nat)
    ensures q * COMMIT_BYTES % COMMIT_BYTES == 0
  {
  }

  // ---- finishing, cancelling, disconnecting ----

  /** A new published file is what any result recorded for its name says it is. */
  lemma PublishKept(cfg: Config, w: World, name: string, key: Key, data: bytes)
    requires Inv(cfg, w) && DistinctNames(cfg) && Matches(cfg, data, key)
    ensures Inv(cfg, w.(published := w.published[cfg.destination(name, key) := data]))
  {
    var published := w.published[cfg.destination(name, key) := data];
    forall s: Sidecar | ResultOk(cfg, w.published, s) ensures ResultOk(cfg, published, s) {}
  }

  lemma RemoveKept(cfg: Config, w: World, path: Path)
    requires Inv(cfg, w)
    ensures Inv(cfg, w.(published := w.published - {path}))
  {
    forall s: Sidecar | ResultOk(cfg, w.published, s) ensures ResultOk(cfg, w.published - {path}, s) {}
  }

  /** The link itself. */
  function Linked(cfg: Config, w: World, id: nat): World
    requires id in w.transfers && w.transfers[id].state.key in w.folders
  {
    PublishTrace(cfg, w, id)[0]
  }

  lemma LinkKept(cfg: Config, w: World, id: nat)
    requires Inv(cfg, w) && DistinctNames(cfg) && id in w.transfers && w.transfers[id].state.key in w.folders
    requires var t := w.transfers[id]; !t.failed && t.received == t.state.committed == t.state.key.size
    requires Publishable(cfg, w, id)
    ensures var v := Linked(cfg, w, id);
      && Inv(cfg, v) && v == w.(published := v.published) && Target(cfg, w.transfers[id]) in v.published
      && Matches(cfg, v.published[Target(cfg, w.transfers[id])], w.transfers[id].state.key)
  {
    var t := w.transfers[id];
    PairOf(cfg, w, id);
    hide Inv, DistinctNames;
    if Target(cfg, t) !in w.published {
      PublishKept(cfg, w, t.state.name, t.state.key, w.folders[t.state.key].part.data);
    }
  }

  lemma ResultPair(cfg: Config, published: map<Path, bytes>, t: Transfer, f: Folder)
    requires PairOk(cfg, published, t, f) && t.state.committed == t.state.key.size
    requires Target(cfg, t) in published && Matches(cfg, published[Target(cfg, t)], t.state.key)
    ensures var t1 := t.(state := t.state.(result := Some(Target(cfg, t))));
      PairOk(cfg, published, t1, f) && PairOk(cfg, published, t1, f.(sidecar := Some(t1.state)))
  {
  }

  lemma PublishTraceKept(cfg: Config, w: World, id: nat)
    requires Inv(cfg, w) && DistinctNames(cfg) && id in w.transfers && w.transfers[id].state.key in w.folders
    requires var t := w.transfers[id]; !t.failed && t.received == t.state.committed == t.state.key.size
    requires Publishable(cfg, w, id)
    ensures AllInv(cfg, PublishTrace(cfg, w, id))
  {
    var t := w.transfers[id];
    var f := w.folders[t.state.key];
    LinkKept(cfg, w, id);
    var linked := Linked(cfg, w, id);
    PairOf(cfg, linked, id);
    ResultPair(cfg, linked.published, t, f);
    hide Inv, PairOk, Publishable, DistinctNames;
    var t1 := t.(state := t.state.(result := Some(Target(cfg, t))));
    var named, stored := WithPair(linked, id, t1, f), WithPair(linked, id, t1, f.(sidecar := Some(t1.state)));
    PairKept(cfg, linked, id, t1, f);
    PairKept(cfg, linked, id, t1, f.(sidecar := Some(t1.state)));
    ClosingKept(cfg, stored, CloseTransfer(stored, id));
    assert PublishTrace(cfg, w, id) == [linked, named, stored, CloseTransfer(stored, id)];
  }

  lemma CompleteKept(cfg: Config, w: World, id: nat)
    requires Inv(cfg, w) && DistinctNames(cfg) && id in w.transfers && !w.transfers[id].failed
    requires w.transfers[id].state.result.None? && w.transfers[id].state.key in w.folders
    ensures AllInv(cfg, CompleteTrace(cfg, w, id))
  {
    if w.transfers[id].received == w.transfers[id].state.key.size {
      CommitKept(cfg, w, id);
      var v := CommitTrace(w, id)[2];
      assert Inv(cfg, v);
      if Publishable(cfg, v, id) {
        PublishTraceKept(cfg, v, id);
      }
    }
  }

  lemma ForgetResultKept(cfg: Config, w: World, id: nat)
    requires Inv(cfg, w) && id in w.transfers
    ensures w.transfers[id].state.key in w.folders && Inv(cfg, ForgetResult(w, id))
  {
    var t := w.transfers[id];
    assert PairOk(cfg, w.published, t, w.folders[t.state.key]);
    PairKept(cfg, w, id, t.(state := t.state.(result := None)), w.folders[t.state.key]);
  }

  lemma FinishKept(cfg: Config, w: World, peer: string, id: nat)
    requires Inv(cfg, w) && DistinctNames(cfg)
    ensures AllInv(cfg, FinishOp(cfg, w, peer, id).trace)
  {
    if Owned(w, peer, id) {
      ClosingKept(cfg, w, CloseTransfer(w, id));
      ForgetResultKept(cfg, w, id);
      CompleteKept(cfg, ForgetResult(w, id), id);
    }
  }

  lemma CancelKept(cfg: Config, w: World, peer: string, sha: string, size: int, token: Option<string>, partFirst: bool)
    requires Inv(cfg, w)
    ensures AllInv(cfg, CancelOp(cfg, w, peer, sha, size, token, partFirst).trace)
  {
    if ValidIdentity(cfg, sha, size) {
      var key := Key(peer, sha, size);
      var w1 := CloseKey(w, key);
      ClosingKept(cfg, w, w1);
      if key in w.folders {
        var f := w1.folders[key];
        assert FolderOk(cfg, w.published, key, f);
        FolderKept(cfg, w1, key, f.(part := EMPTY_FILE));
        FolderKept(cfg, w1, key, f.(sidecar := None));
        FolderGone(cfg, w1, key);
      }
    }
  }

  lemma FolderGone(cfg: Config, w: World, key: Key)
    requires Inv(cfg, w) && !InUse(w, key)
    ensures Inv(cfg, w.(folders := w.folders - {key}))
  {
  }

  lemma SuspendKept(cfg: Config, w: World, peer: string, id: nat)
    requires Inv(cfg, w)
    ensures AllInv(cfg, SuspendTrace(w, peer, id)) && Inv(cfg, Suspended(w, peer, id))
  {
    if Suspends(w, peer, id) {
      var t := w.transfers[id];
      var f := w.folders[t.state.key];
      assert PairOk(cfg, w.published, t, f);
      PairKept(cfg, w, id, t, f.(sidecar := Some(t.state)));
      ClosingKept(cfg, PersistState(w, id), Suspended(w, peer, id));
    }
  }

  lemma {:induction false} DisconnectKept(cfg: Config, w: World, peer: string, order: seq<nat>)
    requires Inv(cfg, w)
    ensures AllInv(cfg, DisconnectTrace(w, peer, order))
    decreases order
  {
    if order != [] {
      SuspendKept(cfg, w, peer, order[0]);
      DisconnectKept(cfg, Suspended(w, peer, order[0]), peer, order[1..]);
    }
  }

  predicate OfPeer(w: World, peer: string, id: nat) {
    id in w.transfers && w.transfers[id].state.key.peer == peer
  }

  /** Every transfer of the peer is in `order`. */
  ghost predicate Covers(w: World, peer: string, order: seq<nat>) {
    forall id :: OfPeer(w, peer, id) ==> id in order
  }

  /** The peer has no transfer open, and what it had committed is on disk. */
  ghost predicate Detached(w: World, peer: string, v: World) {
    && (forall id :: !OfPeer(v, peer, id))
    && (forall id :: OfPeer(w, peer, id) ==>
          && w.transfers[id].state.key in v.folders
          && v.folders[w.transfers[id].state.key].sidecar == Some(w.transfers[id].state))
    && (forall id :: id in v.transfers <==> id in w.transfers && !OfPeer(w, peer, id))
    && (forall id :: id in v.transfers ==> v.transfers[id] == w.transfers[id])
  }

  function Disconnected(w: World, peer: string, order: seq<nat>): World
    decreases order
  {
    if order == [] then w else Disconnected(Suspended(w, peer, order[0]), peer, order[1..])
  }

  lemma {:induction false} DisconnectEnds(w: World, peer: string, order: seq<nat>)
    ensures var trace := DisconnectTrace(w, peer, order); trace[|trace| - 1] == Disconnected(w, peer, order)
    decreases order
  {
    if order != [] {
      DisconnectEnds(Suspended(w, peer, order[0]), peer, order[1..]);
    }
  }

  lemma DisconnectFinal(cfg: Config, w: World, peer: string, order: seq<nat>)
    ensures Final(cfg, w, Disconnect(peer, order)) == Disconnected(w, peer, order)
  {
    DisconnectEnds(w, peer, order);
    hide DisconnectTrace, Disconnected;
  }

  lemma {:induction false} DisconnectedTransfer(cfg: Config, w: World, peer: string, order: seq<nat>, id: nat)
    requires Inv(cfg, w)
    ensures var v := Disconnected(w, peer, order);
      && (id in v.transfers <==> id in w.transfers && !(id in order && OfPeer(w, peer, id)))
      && (id in v.transfers ==> v.transfers[id] == w.transfers[id])
    decreases order
  {
    if order != [] {
      SuspendKept(cfg, w, peer, order[0]);
      if order[0] in w.transfers { PairOf(cfg, w, order[0]); }
      DisconnectedTransfer(cfg, Suspended(w, peer, order[0]), peer, order[1..], id);
      hide Inv;
    }
  }

  lemma {:induction false} FolderLeft(w: World, peer: string, order: seq<nat>, key: Key)
    requires !InUse(w, key) && key in w.folders
    ensures var v := Disconnected(w, peer, order); key in v.folders && v.folders[key] == w.folders[key]
    decreases order
  {
    if order != [] {
      FolderLeft(Suspended(w, peer, order[0]), peer, order[1..], key);
    }
  }

  lemma SuspendStores(w: World, peer: string, id: nat)
    requires OfPeer(w, peer, id) && w.transfers[id].state.key in w.folders && Exclusive(w.transfers)
    ensures var u := Suspended(w, peer, id); var state := w.transfers[id].state;
      !InUse(u, state.key) && state.key in u.folders && u.folders[state.key].sidecar == Some(state)
  {
  }

  lemma {:induction false} StateStored(cfg: Config, w: World, peer: string, order: seq<nat>, id: nat)
    requires Inv(cfg, w) && OfPeer(w, peer, id) && id in order
    ensures var v := Disconnected(w, peer, order); var state := w.transfers[id].state;
      state.key in v.folders && v.folders[state.key].sidecar == Some(state)
    decreases order
  {
    SuspendKept(cfg, w, peer, order[0]);
    PairOf(cfg, w, id);
    if order[0] == id {
      SuspendStores(w, peer, id);
      hide Inv, PairOk;
      FolderLeft(Suspended(w, peer, id), peer, order[1..], w.transfers[id].state.key);
    } else {
      hide Inv, PairOk;
      StateStored(cfg, Suspended(w, peer, order[0]), peer, order[1..], id);
    }
  }

  /** A disconnect that has run to its end leaves the peer no open transfer. */
  lemma DisconnectCloses(cfg: Config, w: World, peer: string, order: seq<nat>)
    requires Inv(cfg, w) && Covers(w, peer, order)
    ensures Detached(w, peer, Final(cfg, w, Disconnect(peer, order)))
  {
    var v := Disconnected(w, peer, order);
    DisconnectFinal(cfg, w, peer, order);
    hide Final, Op, Disconnected;
    forall id
      ensures id in v.transfers <==> id in w.transfers && !(id in order && OfPeer(w, peer, id))
      ensures id in v.transfers ==> v.transfers[id] == w.transfers[id]
    {
      DisconnectedTransfer(cfg, w, peer, order, id);
    }
    forall id | OfPeer(w, peer, id)
      ensures w.transfers[id].state.key in v.folders
      ensures v.folders[w.transfers[id].state.key].sidecar == Some(w.transfers[id].state)
    {
      StateStored(cfg, w, peer, order, id);
    }
    hide Inv;
  }

  /** Every world an operation passes through keeps the invariant. */
  lemma TraceKept(cfg: Config, w: World, ev: Event)
    requires Inv(cfg, w) && Settled(w) && Honest(cfg, w, ev) && DistinctNames(cfg)
    ensures AllInv(cfg, Op(cfg, w, ev).trace)
  {
    match ev
    case Begin(peer, sha, size, token, name) => BeginKept(cfg, w, peer, sha, size, token, name);
    case Chunk(peer, env) => ChunkKept(cfg, w, peer, env);
    case Finish(peer, id) => FinishKept(cfg, w, peer, id);
    case Cancel(peer, sha, size, token, partFirst) => CancelKept(cfg, w, peer, sha, size, token, partFirst);
    case Disconnect(peer, order) => DisconnectKept(cfg, w, peer, order);
    case RemoveFile(path) => RemoveKept(cfg, w, path);
  }

  // ---- settled transfers ----

  predicate AllSettled(trace: seq<World>) {
    forall v :: v in trace ==> Settled(v)
  }

  lemma {:induction false} DisconnectSettled(w: World, peer: string, order: seq<nat>)
    requires Settled(w)
    ensures AllSettled(DisconnectTrace(w, peer, order))
    decreases order
  {
    if order != [] {
      var id := order[0];
      DisconnectSettled(Suspended(w, peer, id), peer, order[1..]);
    }
  }

  lemma PublishSettled(cfg: Config, w: World, id: nat)
    requires Settled(w) && id in w.transfers && w.transfers[id].state.key in w.folders
    ensures AllSettled(PublishTrace(cfg, w, id))
  {
  }

  lemma CompleteSettled(cfg: Config, w: World, id: nat)
    requires Settled(w) && id in w.transfers && w.transfers[id].state.key in w.folders
    ensures AllSettled(CompleteTrace(cfg, w, id))
  {
    if Completes(cfg, w, id) {
      PublishSettled(cfg, CommitTrace(w, id)[2], id);
    }
  }

  lemma FinishSettled(cfg: Config, w: World, peer: string, id: nat)
    requires Settled(w)
    ensures AllSettled(FinishOp(cfg, w, peer, id).trace)
  {
    if Owned(w, peer, id) && w.transfers[id].state.key in w.folders {
      CompleteSettled(cfg, ForgetResult(w, id), id);
    }
  }

  lemma OpenSettled(w: World, state: Sidecar)
    requires Settled(w) && state.key in w.folders && state.committed <= |w.folders[state.key].part.data|
    ensures AllSettled(OpenTrace(w, state))
  {
  }

  lemma BeginSettled(cfg: Config, w: World, peer: string, sha: string, size: int, token: Option<string>, name: string)
    requires Settled(w)
    ensures AllSettled(BeginOp(cfg, w, peer, sha, size, token, name).trace)
  {
    forall v | v in BeginOp(cfg, w, peer, sha, size, token, name).trace ensures Settled(v) {
      hide BeginOp, OpenTrace, ValidSidecar, Admissible;
      BeginWorlds(cfg, w, peer, sha, size, token, name, v);
      if v != w {
        var key := Key(peer, sha, size);
        var w1 := EnsureFolder(w, key);
        var w2 := CloseKey(w1, key);
        if v != w1 && v != w2 {
          OpenSettled(w2, StoredState(w1.folders[key], key, token, name).(token := token));
        }
      }
    }
  }

  lemma OpSettled(cfg: Config, w: World, ev: Event)
    requires Settled(w) && !ev.Chunk?
    ensures AllSettled(Op(cfg, w, ev).trace)
  {
    match ev
    case Begin(peer, sha, size, token, name) => BeginSettled(cfg, w, peer, sha, size, token, name);
    case Finish(peer, id) => FinishSettled(cfg, w, peer, id);
    case Cancel(peer, sha, size, token, partFirst) =>
    case Disconnect(peer, order) => DisconnectSettled(w, peer, order);
    case RemoveFile(path) =>
  }

  lemma ChunkOthers(w: World, peer: string, env: Envelope, v: World, id: nat)
    requires v in ChunkOp(w, peer, env).trace && id in v.transfers && id != env.id
    ensures id in w.transfers && v.transfers[id] == w.transfers[id]
  {
    hide WriteAt, Acceptable, CommitDue;
  }

  lemma ChunkEnds(cfg: Config, w: World, peer: string, env: Envelope)
    requires Inv(cfg, w) && Settled(w) && Honest(cfg, w, Chunk(peer, env)) && Owned(w, peer, env.id)
    ensures var v := Final(cfg, w, Chunk(peer, env)); env.id in v.transfers && SettledTransfer(v.transfers[env.id])
  {
    PairOf(cfg, w, env.id);
    var t := w.transfers[env.id];
    if Acceptable(t, env) {
      AppendPair(cfg, w.published, t, w.folders[t.state.key], env);
    }
    hide Inv, PairOk, WriteAt, Acceptable;
  }

  lemma ChunkSettled(cfg: Config, w: World, peer: string, env: Envelope)
    requires Inv(cfg, w) && Settled(w) && Honest(cfg, w, Chunk(peer, env))
    ensures Settled(Final(cfg, w, Chunk(peer, env)))
    ensures forall v, id :: v in ChunkOp(w, peer, env).trace && id in v.transfers && id != env.id ==>
      SettledTransfer(v.transfers[id])
  {
    forall v, id | v in ChunkOp(w, peer, env).trace && id in v.transfers && id != env.id
      ensures SettledTransfer(v.transfers[id])
    {
      hide ChunkOp, Inv;
      ChunkOthers(w, peer, env, v, id);
    }
    var v := Final(cfg, w, Chunk(peer, env));
    assert v in ChunkOp(w, peer, env).trace;
    if Owned(w, peer, env.id) {
      ChunkEnds(cfg, w, peer, env);
    }
    hide Inv;
  }

  // ---- disturbed operations ----

  ghost predicate Good(cfg: Config, w: World) {
    Inv(cfg, w) && Settled(w)
  }

  lemma PartialWriteKept(cfg: Config, published: map<Path, bytes>, t: Transfer, f: Folder, data: bytes)
    requires PairOk(cfg, published, t, f) && !t.failed
    ensures PairOk(cfg, published, t.(failed := true), f.(part := WriteAt(f.part, t.received, data)))
  {
    var part := WriteAt(f.part, t.received, data);
    assert part.data == f.part.data + data;
    assert part.data[..t.state.committed] == f.part.data[..t.state.committed];
    assert part.data[..t.received] == f.part.data[..t.received];
  }

  /** A failing chunk leaves its transfer marked; a failing write leaves some bytes too. */
  lemma MarkedKept(cfg: Config, v: World, id: nat, data: Option<bytes>)
    requires Inv(cfg, v) && id in v.transfers && v.transfers[id].state.key in v.folders
    requires data.Some? ==>
      !v.transfers[id].failed && v.transfers[id].received <= |v.folders[v.transfers[id].state.key].part.data|
    requires forall i :: i in v.transfers && i != id ==> SettledTransfer(v.transfers[i])
    ensures var t := v.transfers[id]; var f := v.folders[t.state.key];
      Good(cfg, WithPair(v, id, t.(failed := true),
                         if data.Some? then f.(part := WriteAt(f.part, t.received, data.value)) else f))
  {
    var t := v.transfers[id];
    var f := v.folders[t.state.key];
    assert PairOk(cfg, v.published, t, f);
    if data.Some? {
      PartialWriteKept(cfg, v.published, t, f, data.value);
      PairKept(cfg, v, id, t.(failed := true), f.(part := WriteAt(f.part, t.received, data.value)));
    } else {
      PairKept(cfg, v, id, t.(failed := true), f);
    }
  }

  lemma ChunkFaultKept(cfg: Config, w: World, v: World, peer: string, env: Envelope, written: nat)
    requires Good(cfg, w) && Honest(cfg, w, Chunk(peer, env)) && v in ChunkOp(w, peer, env).trace
    ensures Good(cfg, Faulted(w, v, Chunk(peer, env), written))
  {
    ChunkKept(cfg, w, peer, env);
    if Owned(w, peer, env.id) && env.id in v.transfers && v.transfers[env.id].state.key in v.folders {
      ChunkSettled(cfg, w, peer, env);
      var t := v.transfers[env.id];
      if v == w && Acceptable(t, env) && t.received <= |v.folders[t.state.key].part.data| {
        MarkedKept(cfg, v, env.id, Some(env.data[..Min(written, |env.data|)]));
      } else {
        MarkedKept(cfg, v, env.id, None);
      }
    } else {
      UnownedChunk(w, v, peer, env);
    }
  }

  lemma UnownedChunk(w: World, v: World, peer: string, env: Envelope)
    requires v in ChunkOp(w, peer, env).trace
    requires !(Owned(w, peer, env.id) && env.id in v.transfers && v.transfers[env.id].state.key in v.folders)
    ensures v == w
  {
  }

  lemma FaultKept(cfg: Config, w: World, v: World, ev: Event, written: nat)
    requires Good(cfg, w) && Honest(cfg, w, ev) && DistinctNames(cfg) && v in Op(cfg, w, ev).trace
    ensures Good(cfg, Faulted(w, v, ev, written))
  {
    if ev.Chunk? {
      ChunkFaultKept(cfg, w, v, ev.peer, ev.env, written);
    } else {
      TraceKept(cfg, w, ev);
      OpSettled(cfg, w, ev);
      if ev.Disconnect? {
        ClosingKept(cfg, v, Faulted(w, v, ev, written));
      }
    }
  }

  /** What a crash leaves behind is good again, whatever became of the bytes never synced. */
  lemma CrashKept(cfg: Config, w: World, after: map<Key, Folder>)
    requires Inv(cfg, w) && CrashImage(w.folders, after)
    ensures Good(cfg, World(map[], after, w.published, w.nextId))
  {
    forall k | k in after ensures FolderOk(cfg, w.published, k, after[k]) {
      var f, g := w.folders[k], after[k];
      assert FolderOk(cfg, w.published, k, f);
      if f.sidecar.Some? && !Torn(f) {
        var c := f.sidecar.value.committed;
        assert g.part.data[..c] == g.part.data[..f.part.synced][..c];
        assert f.part.data[..c] == f.part.data[..f.part.synced][..c];
      }
    }
  }

  /** A crash may leave anything behind the synced bytes, up to what was ever written. */
  lemma CrashLeavesAnything(before: map<Key, Folder>, key: Key, data: bytes) returns (after: map<Key, Folder>)
    requires key in before && forall k :: k in before ==> FileOk(before[k].part)
    requires var f := before[key].part;
      f.synced <= |f.data| && f.synced <= |data| <= f.extent && data[..f.synced] == f.data[..f.synced]
    ensures CrashImage(before, after) && key in after && after[key].part.data == data
  {
    after := (map k | k in before :: before[k].(part := File(before[k].part.data, before[k].part.synced,
                                                             Max(before[k].part.extent, |before[k].part.data|))))
             [key := before[key].(part := File(data, before[key].part.synced,
                                               Max(before[key].part.extent, |before[key].part.data|)))];
  }

  /** A failing write may leave any part of the chunk; the transfer is marked. */
  lemma FaultLeavesAnyPart(cfg: Config, w: World, peer: string, env: Envelope, written: nat)
    requires Inv(cfg, w) && env.id in w.transfers && w.transfers[env.id].state.key.peer == peer
    requires !w.transfers[env.id].failed && Acceptable(w.transfers[env.id], env) && written <= |env.data|
    ensures var v, key := Faulted(w, w, Chunk(peer, env), written), w.transfers[env.id].state.key;
      && key in v.folders && key in w.folders && env.id in v.transfers && v.transfers[env.id].failed
      && v.folders[key].part.data == w.folders[key].part.data + env.data[..written]
  {
    PairOf(cfg, w, env.id);
    var t, f := w.transfers[env.id], w.folders[w.transfers[env.id].state.key];
    assert f.part.data[..t.received] + env.data[..written] + [] == f.part.data + env.data[..written];
  }

  ghost predicate HonestStep(cfg: Config, w: World, step: Step) {
    Honest(cfg, w, step.ev)
  }

  /** Every step, undisturbed, failing or cut short, keeps the receiver good. */
  lemma NextKept(cfg: Config, w: World, step: Step, w': World)
    requires Good(cfg, w) && DistinctNames(cfg) && HonestStep(cfg, w, step) && Next(cfg, w, step, w')
    ensures Good(cfg, w')
  {
    TraceKept(cfg, w, step.ev);
    match step
    case Complete(ev) =>
      if ev.Chunk? { ChunkSettled(cfg, w, ev.peer, ev.env); } else { OpSettled(cfg, w, ev); }
    case Fault(ev, at, written) =>
      FaultKept(cfg, w, Op(cfg, w, ev).trace[at], ev, written);
    case Crash(ev, at, after) =>
      CrashKept(cfg, Op(cfg, w, ev).trace[at], after);
  }

  lemma {:induction false} RunKept(cfg: Config, worlds: seq<World>, steps: seq<Step>, n: nat)
    requires DistinctNames(cfg) && IsRun(cfg, worlds, steps) && n < |worlds|
    requires forall i :: 0 <= i < |steps| ==> HonestStep(cfg, worlds[i], steps[i])
    ensures Good(cfg, worlds[n])
  {
    if n > 0 {
      RunKept(cfg, worlds, steps, n - 1);
      NextKept(cfg, worlds[n - 1], steps[n - 1], worlds[n]);
    }
  }
}
