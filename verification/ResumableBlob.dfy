/** The receiving side of a resumable file push (federation-resumable-blob.ts).
  *
  * A receiver keeps open transfers in memory, and per content key a folder on disk holding the
  * partial file and a sidecar with the durable resume offset. Every operation is described by
  * its trace: the worlds it passes through, one per effect that a crash or a failing call can
  * follow. The last world of the trace is the result of the undisturbed operation.
  */
module ResumableBlob {
  import opened Prelude

  const CHUNK_BYTES := 262144
  const WINDOW_CHUNKS := 4
  const COMMIT_BYTES := 1048576
  const MAX_BYTES := 536870912
  const MAX_TRANSFERS := 4

  type Path = string

  /** Names the folder of one content: the hash of these three in the source. */
  datatype Key = Key(peer: string, sha: string, size: nat)

  datatype Sidecar = Sidecar(key: Key, token: Option<string>, name: string, committed: nat, result: Option<Path>)

  /** `data` is what a reader sees, `data[..synced]` survives a crash, and `extent` bounds the
    * length a crash can leave behind: no byte beyond it was ever written since the last sync. */
  datatype File = File(data: bytes, synced: nat, extent: nat)

  datatype Folder = Folder(sidecar: Option<Sidecar>, part: File)

  datatype Transfer = Transfer(state: Sidecar, received: nat, failed: bool)

  datatype World = World(transfers: map<nat, Transfer>, folders: map<Key, Folder>,
                         published: map<Path, bytes>, nextId: nat)

  /** A binary chunk as it arrives; `filePush` says whether its purpose is "file_push". */
  datatype Envelope = Envelope(id: nat, filePush: bool, index: int, count: int, totalSize: int,
                               sha: string, data: bytes)

  datatype Event =
    | Begin(peer: string, sha: string, size: int, token: Option<string>, name: string)
    | Chunk(peer: string, env: Envelope)
    | Finish(peer: string, id: nat)
    | Cancel(peer: string, sha: string, size: int, token: Option<string>, partFirst: bool)
    | Disconnect(peer: string, order: seq<nat>)
    | RemoveFile(path: Path)

  datatype Reply =
    | Begun(id: nat, committed: nat)
    | Done
    | Receipt(path: Path, size: nat, sha: string)
    | Refused

  datatype Outcome = Outcome(trace: seq<World>, reply: Reply)

  /** What the model takes as given: SHA-256, the identifier patterns, the published name, and,
    * when every sender is honest, the bytes that the senders of a key hold. */
  datatype Config = Config(hash: bytes -> string,
                           validSha: string -> bool,
                           validToken: string -> bool,
                           destination: (string, Key) -> Path,
                           source: Option<Key -> bytes>)

  const EMPTY_FILE := File([], 0, 0)

  // ---- file effects ----

  function WriteAt(f: File, offset: nat, data: bytes): File
    requires offset <= |f.data|
  {
    var end := offset + |data|;
    var bytes := f.data[..offset] + data + (if end <= |f.data| then f.data[end..] else []);
    File(bytes, Min(f.synced, offset), Max(f.extent, |bytes|))
  }

  function Truncate(f: File, size: nat): File
    requires size <= |f.data|
  {
    File(f.data[..size], Min(f.synced, size), Max(f.extent, |f.data|))
  }

  function Sync(f: File): File {
    File(f.data, |f.data|, |f.data|)
  }

  // ---- world effects ----

  function WithFolder(w: World, key: Key, f: Folder): World {
    w.(folders := w.folders[key := f])
  }

  /** Replaces an open transfer and the folder of its key. */
  function WithPair(w: World, id: nat, t: Transfer, f: Folder): World {
    w.(transfers := w.transfers[id := t], folders := w.folders[t.state.key := f])
  }

  function CloseKey(w: World, key: Key): World {
    w.(transfers := map id | id in w.transfers && w.transfers[id].state.key != key :: w.transfers[id])
  }

  function CloseTransfer(w: World, id: nat): World {
    w.(transfers := w.transfers - {id})
  }

  // ---- operations ----

  predicate ValidIdentity(cfg: Config, sha: string, size: int) {
    cfg.validSha(sha) && 0 <= size <= MAX_BYTES
  }

  predicate Aligned(offset: nat, size: nat) {
    offset == size || offset % COMMIT_BYTES == 0
  }

  predicate ValidSidecar(s: Sidecar, key: Key) {
    s.key == key && s.committed <= key.size && Aligned(s.committed, key.size)
  }

  /** A transfer of this peer that has not failed. */
  predicate Owned(w: World, peer: string, id: nat) {
    id in w.transfers && w.transfers[id].state.key.peer == peer && !w.transfers[id].failed
  }

  predicate InUse(w: World, key: Key) {
    exists id :: id in w.transfers && w.transfers[id].state.key == key
  }

  /** Identity and owner are well formed, and the receiver has room or already knows the key. */
  predicate Admissible(cfg: Config, w: World, peer: string, sha: string, size: int, token: Option<string>) {
    && ValidIdentity(cfg, sha, size)
    && (token.Some? ==> cfg.validToken(token.value))
    && (|w.transfers| < MAX_TRANSFERS || InUse(w, Key(peer, sha, size)))
  }

  function EnsureFolder(w: World, key: Key): World {
    if key in w.folders then w else WithFolder(w, key, Folder(None, EMPTY_FILE))
  }

  /** The sidecar on disk, or a new one for a first begin. */
  function StoredState(f: Folder, key: Key, token: Option<string>, name: string): Sidecar {
    f.sidecar.GetOr(Sidecar(key, token, name, 0, None))
  }

  /** Drop the speculative tail, persist the sidecar, open the transfer. */
  function OpenTrace(w: World, state: Sidecar): (trace: seq<World>)
    requires state.key in w.folders && state.committed <= |w.folders[state.key].part.data|
    ensures |trace| == 3
  {
    var f := w.folders[state.key];
    var f1 := f.(part := Truncate(f.part, state.committed));
    var w2 := WithFolder(w, state.key, f1.(sidecar := Some(state)));
    [WithFolder(w, state.key, f1), w2,
     w2.(transfers := w2.transfers[w2.nextId := Transfer(state, state.committed, false)], nextId := w2.nextId + 1)]
  }

  function BeginOp(cfg: Config, w: World, peer: string, sha: string, size: int,
                   token: Option<string>, name: string): Outcome
  {
    if !Admissible(cfg, w, peer, sha, size, token) then Outcome([w], Refused)
    else
      var key := Key(peer, sha, size);
      var w1 := EnsureFolder(w, key);
      var stored := StoredState(w1.folders[key], key, token, name);
      if !ValidSidecar(stored, key) || (stored.token != token && stored.result.None?) then Outcome([w, w1], Refused)
      else
        var w2 := CloseKey(w1, key);
        if |w2.folders[key].part.data| < stored.committed then Outcome([w, w1, w2], Refused)
        else Outcome([w, w1, w2] + OpenTrace(w2, stored.(token := token)), Begun(w2.nextId, stored.committed))
  }

  predicate Acceptable(t: Transfer, env: Envelope) {
    var size := t.state.key.size;
    var offset := env.index * CHUNK_BYTES;
    var expected := Min(CHUNK_BYTES, size - offset);
    && t.state.result.None?
    && env.filePush
    && offset == t.received
    && expected > 0
    && |env.data| == expected
    && env.totalSize == size
    && env.sha == t.state.key.sha
    && env.count == (size + CHUNK_BYTES - 1) / CHUNK_BYTES
  }

  predicate CommitDue(t: Transfer) {
    t.received >= t.state.committed + COMMIT_BYTES || t.received == t.state.key.size
  }

  /** Sync the partial file, advance the offset in memory, then persist it. */
  function CommitTrace(w: World, id: nat): seq<World>
    requires id in w.transfers && w.transfers[id].state.key in w.folders
    ensures |CommitTrace(w, id)| == 3
  {
    var t := w.transfers[id];
    var f := w.folders[t.state.key];
    var f1 := f.(part := Sync(f.part));
    var t1 := t.(state := t.state.(committed := t.received));
    [WithPair(w, id, t, f1), WithPair(w, id, t1, f1), WithPair(w, id, t1, f1.(sidecar := Some(t1.state)))]
  }

  function ChunkOp(w: World, peer: string, env: Envelope): Outcome {
    if !Owned(w, peer, env.id) || w.transfers[env.id].state.key !in w.folders then Outcome([w], Refused)
    else
      var t := w.transfers[env.id];
      var f := w.folders[t.state.key];
      if !Acceptable(t, env) || |f.part.data| < t.received then
        Outcome([w, WithPair(w, env.id, t.(failed := true), f)], Refused)
      else
        // The offset advances in the same turn as the last write returns. A crash during the
        // writes is one of the crashes possible after them.
        var t1 := t.(received := t.received + |env.data|);
        var w1 := WithPair(w, env.id, t1, f.(part := WriteAt(f.part, t.received, env.data)));
        if CommitDue(t1) then Outcome([w, w1] + CommitTrace(w1, env.id), Done)
        else Outcome([w, w1], Done)
  }

  predicate Matches(cfg: Config, data: bytes, key: Key) {
    |data| == key.size && cfg.hash(data) == key.sha
  }

  function Target(cfg: Config, t: Transfer): Path {
    cfg.destination(t.state.name, t.state.key)
  }

  /** The committed file has the announced hash, and its published name is free or holds it already. */
  predicate Publishable(cfg: Config, w: World, id: nat)
    requires id in w.transfers && w.transfers[id].state.key in w.folders
  {
    var t := w.transfers[id];
    && cfg.hash(w.folders[t.state.key].part.data) == t.state.key.sha
    && (Target(cfg, t) in w.published ==> Matches(cfg, w.published[Target(cfg, t)], t.state.key))
  }

  /** Link the file (never overwriting one), record the result, persist it, close. */
  function PublishTrace(cfg: Config, w: World, id: nat): (trace: seq<World>)
    requires id in w.transfers && w.transfers[id].state.key in w.folders
    ensures |trace| == 4
  {
    var t := w.transfers[id];
    var f := w.folders[t.state.key];
    var path := Target(cfg, t);
    var w1 := if path in w.published then w else w.(published := w.published[path := f.part.data]);
    var t1 := t.(state := t.state.(result := Some(path)));
    var w3 := WithPair(w1, id, t1, f.(sidecar := Some(t1.state)));
    [w1, WithPair(w1, id, t1, f), w3, CloseTransfer(w3, id)]
  }

  /** Commit, check the hash and publish a transfer that has no result yet. */
  function CompleteTrace(cfg: Config, w: World, id: nat): (trace: seq<World>)
    requires id in w.transfers && w.transfers[id].state.key in w.folders
    ensures |trace| > 0
  {
    var commit := CommitTrace(w, id);
    if w.transfers[id].received != w.transfers[id].state.key.size then [w]
    else if Publishable(cfg, commit[2], id) then [w] + commit + PublishTrace(cfg, commit[2], id)
    else [w] + commit
  }

  predicate Completes(cfg: Config, w: World, id: nat)
    requires id in w.transfers && w.transfers[id].state.key in w.folders
  {
    w.transfers[id].received == w.transfers[id].state.key.size && Publishable(cfg, CommitTrace(w, id)[2], id)
  }

  /** A recorded result whose file is gone is forgotten, in memory only. */
  function ForgetResult(w: World, id: nat): World
    requires id in w.transfers && w.transfers[id].state.key in w.folders
  {
    var t := w.transfers[id];
    WithPair(w, id, t.(state := t.state.(result := None)), w.folders[t.state.key])
  }

  function FinishOp(cfg: Config, w: World, peer: string, id: nat): Outcome {
    if !Owned(w, peer, id) || w.transfers[id].state.key !in w.folders then Outcome([w], Refused)
    else
      var t := w.transfers[id];
      var key := t.state.key;
      if t.state.result.Some? && t.state.result.value in w.published then
        Outcome([w, CloseTransfer(w, id)], Receipt(t.state.result.value, key.size, key.sha))
      else
        var w1 := ForgetResult(w, id);
        Outcome([w] + CompleteTrace(cfg, w1, id),
                if Completes(cfg, w1, id) then Receipt(Target(cfg, t), key.size, key.sha) else Refused)
  }

  function CancelOp(cfg: Config, w: World, peer: string, sha: string, size: int,
                    token: Option<string>, partFirst: bool): Outcome
  {
    if !ValidIdentity(cfg, sha, size) then Outcome([w], Refused)
    else
      var key := Key(peer, sha, size);
      if key in w.folders && w.folders[key].sidecar.Some? && w.folders[key].sidecar.value.token != token then
        Outcome([w], Done)
      else
        var w1 := CloseKey(w, key);
        if key !in w1.folders then Outcome([w, w1], Done)
        else
          // A recursive removal unlinks the two entries one after the other.
          var half := if partFirst then w1.folders[key].(part := EMPTY_FILE) else w1.folders[key].(sidecar := None);
          Outcome([w, w1, WithFolder(w1, key, half), w1.(folders := w1.folders - {key})], Done)
  }

  predicate Suspends(w: World, peer: string, id: nat) {
    id in w.transfers && w.transfers[id].state.key.peer == peer && w.transfers[id].state.key in w.folders
  }

  function PersistState(w: World, id: nat): World
    requires id in w.transfers && w.transfers[id].state.key in w.folders
  {
    var t := w.transfers[id];
    WithPair(w, id, t, w.folders[t.state.key].(sidecar := Some(t.state)))
  }

  function Suspended(w: World, peer: string, id: nat): World {
    if Suspends(w, peer, id) then CloseTransfer(PersistState(w, id), id) else w
  }

  function SuspendTrace(w: World, peer: string, id: nat): (trace: seq<World>)
    ensures |trace| > 0 && trace[0] == w
  {
    if Suspends(w, peer, id) then [w, PersistState(w, id)] else [w]
  }

  /** Persist and close this peer's transfers, in the given order. */
  function DisconnectTrace(w: World, peer: string, order: seq<nat>): (trace: seq<World>)
    ensures |trace| > 0 && trace[0] == w
    decreases order
  {
    if order == [] then [w]
    else SuspendTrace(w, peer, order[0]) + DisconnectTrace(Suspended(w, peer, order[0]), peer, order[1..])
  }

  function Op(cfg: Config, w: World, ev: Event): (o: Outcome)
    ensures |o.trace| > 0
  {
    match ev
    case Begin(peer, sha, size, token, name) => BeginOp(cfg, w, peer, sha, size, token, name)
    case Chunk(peer, env) => ChunkOp(w, peer, env)
    case Finish(peer, id) => FinishOp(cfg, w, peer, id)
    case Cancel(peer, sha, size, token, partFirst) => CancelOp(cfg, w, peer, sha, size, token, partFirst)
    case Disconnect(peer, order) => Outcome(DisconnectTrace(w, peer, order), Done)
    case RemoveFile(path) => Outcome([w, w.(published := w.published - {path})], Done)
  }

  function Final(cfg: Config, w: World, ev: Event): World {
    var trace := Op(cfg, w, ev).trace;
    trace[|trace| - 1]
  }

  // ---- disturbed operations ----

  /** An operation runs to its end, stops at a failing call, or is cut short by a crash. */
  datatype Step =
    | Complete(ev: Event)
    | Fault(ev: Event, at: nat, written: nat)
    | Crash(ev: Event, at: nat, after: map<Key, Folder>)

  /** A failing write leaves `written` bytes of the chunk in the file. Any error of `chunk`
    * marks the transfer; a failing persist does not keep `disconnect` from closing it. */
  function Faulted(w: World, v: World, ev: Event, written: nat): World {
    match ev
    case Chunk(peer, env) =>
      if Owned(w, peer, env.id) && env.id in v.transfers && v.transfers[env.id].state.key in v.folders then
        var t := v.transfers[env.id];
        var f := v.folders[t.state.key];
        var f1 := if v == w && Acceptable(t, env) && t.received <= |f.part.data| then
                    f.(part := WriteAt(f.part, t.received, env.data[..Min(written, |env.data|)]))
                  else f;
        WithPair(v, env.id, t.(failed := true), f1)
      else v
    case Disconnect(peer, order) =>
      v.(transfers := map id | id in v.transfers && !(id in order && v.transfers[id].state.key.peer == peer) ::
        v.transfers[id])
    case _ => v
  }

  /** What a crash may leave of a file: the synced prefix, then anything up to the extent. */
  predicate Survives(before: File, after: File) {
    && before.synced <= |before.data|
    && before.synced <= |after.data| <= Max(before.extent, |before.data|)
    && after.data[..before.synced] == before.data[..before.synced]
    && after.synced == before.synced
    && after.extent == Max(before.extent, |before.data|)
  }

  /** Folders whose sidecar was renamed survive; others may be lost. Memory is lost entirely. */
  predicate CrashImage(before: map<Key, Folder>, after: map<Key, Folder>) {
    && (forall k :: k in before && before[k].sidecar.Some? ==> k in after)
    && (forall k :: k in after ==> k in before && after[k].sidecar == before[k].sidecar
                                   && Survives(before[k].part, after[k].part))
  }

  ghost predicate Next(cfg: Config, w: World, step: Step, w': World) {
    match step
    case Complete(ev) => w' == Final(cfg, w, ev)
    case Fault(ev, at, written) =>
      var trace := Op(cfg, w, ev).trace;
      at < |trace| && w' == Faulted(w, trace[at], ev, written)
    case Crash(ev, at, after) =>
      var trace := Op(cfg, w, ev).trace;
      at < |trace| && CrashImage(trace[at].folders, after)
      && w' == World(map[], after, trace[at].published, trace[at].nextId)
  }

  /** A run visits `worlds`, one more than the steps taken between them. */
  ghost predicate IsRun(cfg: Config, worlds: seq<World>, steps: seq<Step>) {
    && |worlds| == |steps| + 1
    && worlds[0].transfers == map[] && worlds[0].folders == map[]
    && forall i :: 0 <= i < |steps| ==> Next(cfg, worlds[i], steps[i], worlds[i + 1])
  }
}
