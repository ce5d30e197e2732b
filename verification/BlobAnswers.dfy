/** What the receiver answers, and what its answers change, from what it has in memory and on disk. */
module BlobAnswers {
  import opened Prelude
  import opened ResumableBlob
  import opened BlobSafety
  import opened BlobResults

  /** A transfer this peer can still use. */
  predicate Usable(w: World, peer: string, id: nat) {
    id in w.transfers && w.transfers[id].state.key.peer == peer && !w.transfers[id].failed
  }

  /** The bytes received so far, as they are in the partial file. */
  function Received(w: World, id: nat): bytes
    requires id in w.transfers && w.transfers[id].state.key in w.folders
  {
    w.folders[w.transfers[id].state.key].part.data
  }

  /** Where a finished file of this name goes: it is not there yet, or it is there already. */
  predicate Free(cfg: Config, published: map<Path, bytes>, name: string, key: Key) {
    var path := cfg.destination(name, key);
    path in published ==> |published[path]| == key.size && cfg.hash(published[path]) == key.sha
  }

  /** Transfers and folders other than this one's. */
  ghost predicate OthersSame(w: World, v: World, id: nat, key: Key) {
    && (forall i :: i != id ==> (i in v.transfers <==> i in w.transfers))
    && (forall i :: i != id && i in v.transfers && i in w.transfers ==> v.transfers[i] == w.transfers[i])
    && v.folders.Keys == w.folders.Keys
    && (forall k :: k != key && k in v.folders ==> v.folders[k] == w.folders[k])
  }

  // ---- finish ----

  /** All bytes are there, they have the announced hash, and nothing else is in the way. */
  predicate Ready(cfg: Config, w: World, id: nat)
    requires id in w.transfers && w.transfers[id].state.key in w.folders
  {
    var t := w.transfers[id];
    && t.received == t.state.key.size && cfg.hash(Received(w, id)) == t.state.key.sha
    && Free(cfg, w.published, t.state.name, t.state.key)
  }

  lemma ReadyCompletes(cfg: Config, w: World, id: nat)
    requires id in w.transfers && w.transfers[id].state.key in w.folders
    ensures Completes(cfg, w, id) <==> Ready(cfg, w, id)
  {
  }

  /** What a finish that has to publish leaves, when it publishes and when it does not. */
  predicate Finished(cfg: Config, w: World, id: nat, v: World)
    requires id in w.transfers && w.transfers[id].state.key in w.folders
  {
    var t := w.transfers[id];
    var path := cfg.destination(t.state.name, t.state.key);
    if Ready(cfg, w, id) then
      && v.published == (if path in w.published then w.published else w.published[path := Received(w, id)])
      && id !in v.transfers && t.state.key in v.folders && v.folders[t.state.key].sidecar.Some?
      && v.folders[t.state.key].sidecar.value.result == Some(path)
    else v.published == w.published && id in v.transfers
  }

  /** Exactly when a finish that has to publish succeeds: all bytes are there, they have the announced
    * hash, and nothing else is in the way. Then the file is published, the result recorded on disk, and
    * the transfer closed; otherwise nothing is published. */
  lemma FinishPublishes(cfg: Config, w: World, peer: string, id: nat)
    requires Inv(cfg, w) && Usable(w, peer, id)
    requires var result := w.transfers[id].state.result; result.None? || result.value !in w.published
    ensures w.transfers[id].state.key in w.folders
    ensures var name, key := w.transfers[id].state.name, w.transfers[id].state.key;
      FinishOp(cfg, w, peer, id).reply ==
        if Ready(cfg, w, id) then Receipt(cfg.destination(name, key), key.size, key.sha) else Refused
    ensures Finished(cfg, w, id, Final(cfg, w, Finish(peer, id)))
    ensures OthersSame(w, Final(cfg, w, Finish(peer, id)), id, w.transfers[id].state.key)
  {
    PairOf(cfg, w, id);
    hide Inv, FinishOp, Final, CompleteTrace, Completes, Finished, Ready, Free, OthersSame;
    FinishCompletes(cfg, w, peer, id);
    var w1, v := Forgetful(w, id), Final(cfg, w, Finish(peer, id));
    CompleteChanges(cfg, w1, id);
    ForgettingChangesNothing(cfg, w, id, v);
    ReadyCompletes(cfg, w1, id);
    SameTwice(w, w1, v, id, w.transfers[id].state.key);
  }

  lemma CompleteChanges(cfg: Config, w: World, id: nat)
    requires id in w.transfers && w.transfers[id].state.key in w.folders
    ensures var trace := CompleteTrace(cfg, w, id);
      Finished(cfg, w, id, trace[|trace| - 1])
      && OthersSame(w, trace[|trace| - 1], id, w.transfers[id].state.key)
  {
    ReadyCompletes(cfg, w, id);
    hide Publishable, Ready;
  }

  lemma ForgettingChangesNothing(cfg: Config, w: World, id: nat, v: World)
    requires id in w.transfers && w.transfers[id].state.key in w.folders
    ensures var w1 := Forgetful(w, id);
      (Ready(cfg, w1, id) <==> Ready(cfg, w, id)) && (Finished(cfg, w1, id, v) <==> Finished(cfg, w, id, v))
  {
    assert Received(Forgetful(w, id), id) == Received(w, id);
  }

  /** So a receipt for a first finish names a file of the announced size and hash. */
  lemma FinishedFile(cfg: Config, w: World, peer: string, id: nat)
    requires Inv(cfg, w) && Usable(w, peer, id) && FinishOp(cfg, w, peer, id).reply.Receipt?
    ensures w.transfers[id].state.key in w.folders
    ensures var key, v := w.transfers[id].state.key, Final(cfg, w, Finish(peer, id));
      var path := cfg.destination(w.transfers[id].state.name, key);
      && path in v.published && |v.published[path]| == key.size && cfg.hash(v.published[path]) == key.sha
  {
    PairOf(cfg, w, id);
    var result := w.transfers[id].state.result;
    if result.None? || result.value !in w.published {
      FinishPublishes(cfg, w, peer, id);
    } else {
      FinishRepeats(cfg, w, peer, id);
    }
    hide Inv, FinishOp, Final;
  }

  /** The world a finish publishes from: a recorded result whose file is gone does not count. */
  function Forgetful(w: World, id: nat): World
    requires id in w.transfers
  {
    w.(transfers := w.transfers[id := w.transfers[id].(state := w.transfers[id].state.(result := None))])
  }

  lemma FinishCompletes(cfg: Config, w: World, peer: string, id: nat)
    requires Usable(w, peer, id) && w.transfers[id].state.key in w.folders
    requires var result := w.transfers[id].state.result; result.None? || result.value !in w.published
    ensures var t, w1 := w.transfers[id], Forgetful(w, id);
      && OthersSame(w, w1, id, t.state.key)
      && Final(cfg, w, Finish(peer, id)) == CompleteTrace(cfg, w1, id)[|CompleteTrace(cfg, w1, id)| - 1]
      && FinishOp(cfg, w, peer, id).reply ==
         if Completes(cfg, w1, id)
         then Receipt(cfg.destination(t.state.name, t.state.key), t.state.key.size, t.state.key.sha) else Refused
  {
    var t := w.transfers[id];
    assert w.folders[t.state.key := w.folders[t.state.key]] == w.folders;
    assert ForgetResult(w, id) == Forgetful(w, id);
    hide CompleteTrace, Completes, ForgetResult;
  }

  lemma SameTwice(u: World, v: World, w: World, id: nat, key: Key)
    requires OthersSame(u, v, id, key) && OthersSame(v, w, id, key)
    ensures OthersSame(u, w, id, key)
  {
  }

  /** A finish that was answered before is answered the same way again, and publishes nothing. */
  lemma FinishRepeats(cfg: Config, w: World, peer: string, id: nat)
    requires Inv(cfg, w) && Usable(w, peer, id)
    requires var result := w.transfers[id].state.result; result.Some? && result.value in w.published
    ensures var t := w.transfers[id];
      var reply, v := FinishOp(cfg, w, peer, id).reply, Final(cfg, w, Finish(peer, id));
      && reply == Receipt(cfg.destination(t.state.name, t.state.key), t.state.key.size, t.state.key.sha)
      && v == w.(transfers := w.transfers - {id})
  {
    PairOf(cfg, w, id);
  }

  /** Nobody else's finish is answered. */
  lemma FinishRefuses(cfg: Config, w: World, peer: string, id: nat)
    requires !Usable(w, peer, id)
    ensures FinishOp(cfg, w, peer, id) == Outcome([w], Refused)
  {
  }

  // ---- begin ----

  /** Whether a begin is admitted: a well-formed identity and owner, room or a transfer to replace, and
    * a folder that is new, this owner's, or finished, with its committed bytes in place. */
  predicate Admits(cfg: Config, w: World, peer: string, sha: string, size: int, token: Option<string>) {
    && cfg.validSha(sha) && 0 <= size <= 512 * 1024 * 1024 && (token.Some? ==> cfg.validToken(token.value))
    && var key := Key(peer, sha, size);
    && (|w.transfers| < 4 || exists id :: id in w.transfers && w.transfers[id].state.key == key)
    && (key in w.folders && w.folders[key].sidecar.Some? ==>
          var f := w.folders[key];
          && (f.sidecar.value.token == token || f.sidecar.value.result.Some?)
          && f.sidecar.value.committed <= |f.part.data|)
  }

  lemma BeginAnswers(cfg: Config, w: World, peer: string, sha: string, size: int, token: Option<string>, name: string)
    requires Inv(cfg, w)
    ensures BeginOp(cfg, w, peer, sha, size, token, name).reply.Begun? <==> Admits(cfg, w, peer, sha, size, token)
  {
    if size >= 0 {
      var key := Key(peer, sha, size);
      if key in w.folders {
        assert FolderOk(cfg, w.published, key, w.folders[key]);
      }
    }
    hide OpenTrace;
  }

  /** An admitted begin opens the transfer where the disk says, cuts the partial file there, and closes
    * every other transfer of the content; nothing else changes. */
  lemma BeginChanges(cfg: Config, w: World, key: Key, token: Option<string>, name: string)
    requires Inv(cfg, w) && Admits(cfg, w, key.peer, key.sha, key.size, token)
    ensures var o, v := BeginOp(cfg, w, key.peer, key.sha, key.size, token, name),
                        Final(cfg, w, Begin(key.peer, key.sha, key.size, token, name));
      var stored := Stored(w, key, token, name);
      && o.reply == Begun(w.nextId, stored.committed) && v.nextId == w.nextId + 1 && v.published == w.published
      && w.nextId in v.transfers && v.transfers[w.nextId] == Transfer(stored, stored.committed, false)
      && key in v.folders && v.folders[key].sidecar == Some(stored)
      && stored.committed <= |At(w, key).part.data|
      && v.folders[key].part.data == At(w, key).part.data[..stored.committed]
      && (forall id :: id in v.transfers && id != w.nextId <==>
            id in w.transfers && id != w.nextId && w.transfers[id].state.key != key)
      && (forall k :: k != key ==> (k in v.folders <==> k in w.folders))
      && (forall k :: k != key && k in v.folders ==> v.folders[k] == w.folders[k])
  {
    BeginAnswers(cfg, w, key.peer, key.sha, key.size, token, name);
    BeginFinal(cfg, w, key, token, name);
    hide Inv, Final, BeginOp, Admits;
  }

  /** The sidecar the transfer starts with: the one on disk, under its present owner, or a new one. */
  function Stored(w: World, key: Key, token: Option<string>, name: string): Sidecar {
    var found := At(w, key).sidecar;
    if found.Some? then Sidecar(key, token, found.value.name, found.value.committed, found.value.result)
    else Sidecar(key, token, name, 0, None)
  }

  lemma BeginFinal(cfg: Config, w: World, key: Key, token: Option<string>, name: string)
    requires Inv(cfg, w) && BeginOp(cfg, w, key.peer, key.sha, key.size, token, name).reply.Begun?
    ensures var o, v := BeginOp(cfg, w, key.peer, key.sha, key.size, token, name),
                        Final(cfg, w, Begin(key.peer, key.sha, key.size, token, name));
      var stored := Stored(w, key, token, name);
      && o.reply == Begun(w.nextId, stored.committed) && stored.committed <= |At(w, key).part.data|
      && v == Opened(CloseKey(w, key), stored, At(w, key).part)
  {
    if key in w.folders {
      assert FolderOk(cfg, w.published, key, w.folders[key]);
    }
    hide Inv, FolderOk;
    StoredThere(w, key, token, name);
    BeginOpens(cfg, w, key, token, name);
    hide BeginOp, Final, OpenTrace, Truncate;
    OpenFinal(Cleared(w, key), Stored(w, key, token, name));
    assert Opened(Cleared(w, key), Stored(w, key, token, name), At(w, key).part)
        == Opened(CloseKey(w, key), Stored(w, key, token, name), At(w, key).part);
  }

  /** The transfer `state` opened over `w`, and the partial file cut where it starts. */
  function Opened(w: World, state: Sidecar, part: File): World
    requires state.committed <= |part.data|
  {
    World(w.transfers[w.nextId := Transfer(state, state.committed, false)],
          w.folders[state.key := Folder(Some(state), Truncate(part, state.committed))], w.published, w.nextId + 1)
  }

  lemma OpenFinal(w: World, state: Sidecar)
    requires state.key in w.folders && state.committed <= |w.folders[state.key].part.data|
    ensures OpenTrace(w, state)[2] == Opened(w, state, w.folders[state.key].part)
  {
    hide Truncate;
  }

  lemma BeginOpens(cfg: Config, w: World, key: Key, token: Option<string>, name: string)
    requires BeginOp(cfg, w, key.peer, key.sha, key.size, token, name).reply.Begun?
    ensures var w2 := Cleared(w, key); var stored := StoredState(w2.folders[key], key, token, name);
      && stored.key == key && stored.committed <= |w2.folders[key].part.data|
      && BeginOp(cfg, w, key.peer, key.sha, key.size, token, name).reply == Begun(w.nextId, stored.committed)
      && Final(cfg, w, Begin(key.peer, key.sha, key.size, token, name)) == OpenTrace(w2, stored.(token := token))[2]
  {
    assert Key(key.peer, key.sha, key.size) == key;
    hide OpenTrace, Admissible;
  }

  lemma StoredThere(w: World, key: Key, token: Option<string>, name: string)
    requires key in w.folders && w.folders[key].sidecar.Some? ==> w.folders[key].sidecar.value.key == key
    ensures StoredState(EnsureFolder(w, key).folders[key], key, token, name).(token := token) ==
      Stored(w, key, token, name)
    ensures EnsureFolder(w, key).folders[key].part == At(w, key).part
  {
  }

  // ---- chunk ----

  /** The one chunk that fits: the next 256 KiB, or what is left of the file. */
  predicate Expected(t: Transfer, env: Envelope) {
    var size := t.state.key.size;
    && t.state.result.None? && env.filePush && env.totalSize == size && env.sha == t.state.key.sha
    && env.index * 262144 == t.received && t.received < size
    && |env.data| == (if size - t.received < 262144 then size - t.received else 262144)
    && env.count * 262144 >= size && (env.count - 1) * 262144 < size
  }

  lemma ChunkAnswers(cfg: Config, w: World, peer: string, env: Envelope)
    requires Inv(cfg, w) && Usable(w, peer, env.id)
    ensures ChunkOp(w, peer, env).reply == if Expected(w.transfers[env.id], env) then Done else Refused
  {
    PairOf(cfg, w, env.id);
    hide Inv, PairOk;
    ExpectedIs(w.transfers[env.id], env);
    hide Acceptable, Expected, CommitTrace;
  }

  lemma ExpectedIs(t: Transfer, env: Envelope)
    ensures Acceptable(t, env) <==> Expected(t, env)
  {
  }

  /** The chunk is appended; at the end of a window, or of the file, everything is synced and recorded. */
  lemma ChunkAppends(cfg: Config, w: World, peer: string, env: Envelope)
    requires Inv(cfg, w) && Usable(w, peer, env.id) && Expected(w.transfers[env.id], env)
    ensures w.transfers[env.id].state.key in w.folders
    ensures var t, v := w.transfers[env.id], Final(cfg, w, Chunk(peer, env));
      var key, received := t.state.key, t.received + |env.data|;
      var due := received >= t.state.committed + 1048576 || received == key.size;
      && env.id in v.transfers && key in v.folders
      && v.transfers[env.id].received == received && !v.transfers[env.id].failed
      && v.transfers[env.id].state == (if due then t.state.(committed := received) else t.state)
      && v.folders[key].part.data == Received(w, env.id) + env.data
      && v.folders[key].sidecar == (if due then Some(t.state.(committed := received)) else w.folders[key].sidecar)
      && (due ==> v.folders[key].part.synced == received)
      && OthersSame(w, v, env.id, key) && v.published == w.published
  {
    WrittenThere(cfg, w, peer, env);
    hide Inv;
    var t := w.transfers[env.id];
    ChunkFinal(cfg, w, peer, env);
    hide Final, Expected;
    assert Received(w, env.id)[..t.received] + env.data + [] == Received(w, env.id) + env.data;
    ReplacedAlone(w, env.id);
    hide OthersSame;
  }

  /** What becomes of the transfer and of its folder. */
  lemma ChunkFinal(cfg: Config, w: World, peer: string, env: Envelope)
    requires Usable(w, peer, env.id) && w.transfers[env.id].state.key in w.folders && Expected(w.transfers[env.id], env)
    requires w.transfers[env.id].received == |Received(w, env.id)|
    ensures var t, f := w.transfers[env.id], w.folders[w.transfers[env.id].state.key];
      var received, part := t.received + |env.data|, WriteAt(f.part, t.received, env.data);
      var state := t.state.(committed := received);
      Final(cfg, w, Chunk(peer, env)) ==
        if received >= t.state.committed + 1048576 || received == t.state.key.size
        then Replaced(w, env.id, Transfer(state, received, false), Folder(Some(state), Sync(part)))
        else Replaced(w, env.id, Transfer(t.state, received, false), f.(part := part))
  {
    ExpectedIs(w.transfers[env.id], env);
    hide Acceptable, Expected, WriteAt;
  }

  lemma ReplacedAlone(w: World, id: nat)
    requires id in w.transfers && w.transfers[id].state.key in w.folders
    ensures forall t: Transfer, f :: t.state.key == w.transfers[id].state.key ==>
      OthersSame(w, Replaced(w, id, t, f), id, t.state.key)
  {
  }

  function Replaced(w: World, id: nat, t: Transfer, f: Folder): World {
    w.(transfers := w.transfers[id := t], folders := w.folders[t.state.key := f])
  }

  lemma WrittenThere(cfg: Config, w: World, peer: string, env: Envelope)
    requires Inv(cfg, w) && Usable(w, peer, env.id)
    ensures w.transfers[env.id].state.key in w.folders && w.transfers[env.id].received == |Received(w, env.id)|
    ensures Received(w, env.id)[..w.transfers[env.id].received] == Received(w, env.id)
  {
    PairOf(cfg, w, env.id);
  }

  /** Any other chunk marks the transfer and changes nothing else; and no chunk of another peer, or of a
    * marked transfer, changes anything. */
  lemma ChunkMarks(cfg: Config, w: World, peer: string, env: Envelope)
    requires Inv(cfg, w)
    ensures !Usable(w, peer, env.id) ==> ChunkOp(w, peer, env) == Outcome([w], Refused)
    ensures Usable(w, peer, env.id) && !Expected(w.transfers[env.id], env) ==>
      var v := Final(cfg, w, Chunk(peer, env));
      v == w.(transfers := w.transfers[env.id := w.transfers[env.id].(failed := true)])
  {
    if Usable(w, peer, env.id) {
      PairOf(cfg, w, env.id);
      ExpectedIs(w.transfers[env.id], env);
      var t := w.transfers[env.id];
      assert w.folders[t.state.key := w.folders[t.state.key]] == w.folders;
    }
  }

  // ---- cancel ----

  /** A cancellation by the owner, or of a folder without a sidecar, leaves neither transfer nor folder;
    * anybody else's leaves everything. */
  lemma CancelAnswers(cfg: Config, w: World, key: Key, token: Option<string>, partFirst: bool)
    requires cfg.validSha(key.sha) && key.size <= 512 * 1024 * 1024
    ensures var v := Final(cfg, w, Cancel(key.peer, key.sha, key.size, token, partFirst));
      && CancelOp(cfg, w, key.peer, key.sha, key.size, token, partFirst).reply == Done
      && (if At(w, key).sidecar.Some? && At(w, key).sidecar.value.token != token then v == w
          else
            && v.folders == w.folders - {key} && v.published == w.published
            && (forall id :: id in v.transfers <==> id in w.transfers && w.transfers[id].state.key != key)
            && (forall id :: id in v.transfers ==> v.transfers[id] == w.transfers[id]))
  {
    assert Key(key.peer, key.sha, key.size) == key;
  }
}
