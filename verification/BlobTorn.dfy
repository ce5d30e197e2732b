/** The one way in which committed bytes can go missing, and what every other run keeps. */
module BlobTorn {
  import opened Prelude
  import opened ResumableBlob
  import opened BlobSafety
  import opened BlobResults

  // ---- cancellations ----

  /** The cancellation is of this content, by its owner, and finds its folder. */
  predicate Removes(cfg: Config, w: World, ev: Event, key: Key) {
    && CancelOf(ev, key) && ValidIdentity(cfg, key.sha, key.size) && key in w.folders
    && (w.folders[key].sidecar.Some? ==> w.folders[key].sidecar.value.token == ev.token)
  }

  /** The removal stops, by a failing call or a crash, between the partial file and the sidecar. */
  predicate Tears(cfg: Config, w: World, step: Step, key: Key) {
    && Removes(cfg, w, step.ev, key) && !step.Complete? && step.at == 2 && step.ev.partFirst
    && w.folders[key].sidecar.Some? && w.folders[key].sidecar.value.committed > 0
  }

  /** The removal gets as far as the sidecar. */
  predicate Clears(cfg: Config, w: World, step: Step, key: Key) {
    Removes(cfg, w, step.ev, key) && (step.Complete? || step.at == 3 || (step.at == 2 && !step.ev.partFirst))
  }

  lemma CancelTears(cfg: Config, w: World, step: Step, w': World, key: Key)
    requires Next(cfg, w, step, w') && CancelOf(step.ev, key)
    ensures Torn(At(w', key)) <==> Tears(cfg, w, step, key) || (Torn(At(w, key)) && !Clears(cfg, w, step, key))
  {
    var trace := Op(cfg, w, step.ev).trace;
    CancelFolders(cfg, w, step.ev, key);
    hide Op, CancelOp;
    match step
    case Complete(ev) =>
    case Fault(ev, at, written) =>
    case Crash(ev, at, after) =>
      CrashTears(trace[at], after, key);
  }

  /** The folder of a cancelled content in each of the worlds a cancellation passes through. */
  lemma CancelFolders(cfg: Config, w: World, ev: Event, key: Key)
    requires CancelOf(ev, key)
    ensures var trace := Op(cfg, w, ev).trace;
      if Removes(cfg, w, ev, key) then
        && |trace| == 4 && At(trace[0], key) == At(trace[1], key) == At(w, key) && key !in trace[3].folders
        && At(trace[2], key) == (if ev.partFirst then At(w, key).(part := EMPTY_FILE) else At(w, key).(sidecar := None))
      else |trace| <= 2 && forall v :: v in trace ==> At(v, key) == At(w, key)
  {
    assert key == Key(ev.peer, ev.sha, ev.size);
  }

  lemma CrashTears(v: World, after: map<Key, Folder>, key: Key)
    requires CrashImage(v.folders, after)
    ensures forall transfers, published, id :: Torn(At(World(transfers, after, published, id), key)) <==>
      Torn(At(v, key))
  {
  }

  // ---- nothing but a cancellation touches a torn folder ----

  predicate Rests(w: World, v: World, key: Key) {
    At(v, key) == At(w, key) && !InUse(v, key)
  }

  predicate AllRest(w: World, trace: seq<World>, key: Key) {
    forall v :: v in trace ==> Rests(w, v, key)
  }

  /** No transfer can be open on a torn folder: its memory would claim synced bytes. */
  lemma TornIsClosed(cfg: Config, w: World, key: Key)
    requires Inv(cfg, w) && Torn(At(w, key))
    ensures !InUse(w, key)
  {
    if InUse(w, key) {
      var id :| id in w.transfers && w.transfers[id].state.key == key;
      PairOf(cfg, w, id);
    }
  }

  lemma {:induction false} DisconnectRests(w: World, peer: string, order: seq<nat>, key: Key)
    requires !InUse(w, key)
    ensures AllRest(w, DisconnectTrace(w, peer, order), key)
    decreases order
  {
    if order != [] {
      SuspendRests(w, peer, order[0], key);
      DisconnectRests(Suspended(w, peer, order[0]), peer, order[1..], key);
      hide Suspended, SuspendTrace, At;
    }
  }

  lemma SuspendRests(w: World, peer: string, id: nat, key: Key)
    requires !InUse(w, key)
    ensures AllRest(w, SuspendTrace(w, peer, id), key) && Rests(w, Suspended(w, peer, id), key)
  {
  }

  lemma CommitRests(w: World, id: nat, key: Key)
    requires !InUse(w, key) && id in w.transfers && w.transfers[id].state.key in w.folders
    ensures AllRest(w, CommitTrace(w, id), key)
  {
  }

  lemma PublishRests(cfg: Config, w: World, id: nat, key: Key)
    requires !InUse(w, key) && id in w.transfers && w.transfers[id].state.key in w.folders
    ensures AllRest(w, PublishTrace(cfg, w, id), key)
  {
  }

  lemma CompleteRests(cfg: Config, w: World, id: nat, key: Key)
    requires !InUse(w, key) && id in w.transfers && w.transfers[id].state.key in w.folders
    ensures AllRest(w, CompleteTrace(cfg, w, id), key)
  {
    CommitRests(w, id, key);
    if Completes(cfg, w, id) {
      assert Rests(w, CommitTrace(w, id)[2], key);
      PublishRests(cfg, CommitTrace(w, id)[2], id, key);
    }
  }

  lemma FinishRests(cfg: Config, w: World, peer: string, id: nat, key: Key)
    requires !InUse(w, key)
    ensures AllRest(w, FinishOp(cfg, w, peer, id).trace, key)
  {
    if Owned(w, peer, id) && w.transfers[id].state.key in w.folders {
      var w1 := ForgetResult(w, id);
      assert Rests(w, w1, key);
      CompleteRests(cfg, w1, id, key);
      hide CompleteTrace, Completes;
    }
  }

  lemma ChunkRests(w: World, peer: string, env: Envelope, key: Key)
    requires !InUse(w, key)
    ensures AllRest(w, ChunkOp(w, peer, env).trace, key)
  {
    hide WriteAt, Acceptable, CommitDue;
  }

  lemma OpenRests(w: World, state: Sidecar, key: Key)
    requires !InUse(w, key) && state.key != key
    requires state.key in w.folders && state.committed <= |w.folders[state.key].part.data|
    ensures AllRest(w, OpenTrace(w, state), key)
  {
  }

  lemma BeginRests(cfg: Config, w: World, ev: Event, key: Key)
    requires !InUse(w, key) && Torn(At(w, key)) && ev.Begin?
    ensures AllRest(w, Op(cfg, w, ev).trace, key)
  {
    var k := if ev.size >= 0 then Key(ev.peer, ev.sha, ev.size) else key;
    forall v | v in Op(cfg, w, ev).trace ensures Rests(w, v, key) {
      BeginWorlds(cfg, w, ev.peer, ev.sha, ev.size, ev.token, ev.name, v);
      hide BeginOp, OpenTrace, ValidSidecar;
      if v != w {
        var w2 := Cleared(w, k);
        assert Rests(w, EnsureFolder(w, k), key) && Rests(w, w2, key);
        if v != EnsureFolder(w, k) && v != w2 {
          OpenRests(w2, StoredState(w2.folders[k], k, ev.token, ev.name).(token := ev.token), key);
        }
      }
    }
  }

  lemma OpRests(cfg: Config, w: World, ev: Event, key: Key)
    requires !InUse(w, key) && Torn(At(w, key)) && !CancelOf(ev, key)
    ensures AllRest(w, Op(cfg, w, ev).trace, key)
  {
    match ev
    case Begin(peer, sha, size, token, name) => BeginRests(cfg, w, ev, key);
    case Chunk(peer, env) => ChunkRests(w, peer, env, key);
    case Finish(peer, id) => FinishRests(cfg, w, peer, id, key);
    case Cancel(peer, sha, size, token, partFirst) =>
    case Disconnect(peer, order) => DisconnectRests(w, peer, order, key);
    case RemoveFile(path) =>
  }

  lemma FaultRests(w: World, v: World, ev: Event, written: nat, key: Key)
    requires !InUse(v, key)
    ensures At(Faulted(w, v, ev, written), key) == At(v, key)
  {
  }

  lemma TornStays(cfg: Config, w: World, step: Step, w': World, key: Key)
    requires Good(cfg, w) && Next(cfg, w, step, w') && !CancelOf(step.ev, key) && Torn(At(w, key))
    ensures Torn(At(w', key))
  {
    TornIsClosed(cfg, w, key);
    OpRests(cfg, w, step.ev, key);
    var trace := Op(cfg, w, step.ev).trace;
    match step
    case Complete(ev) => assert trace[|trace| - 1] in trace;
    case Fault(ev, at, written) =>
      assert trace[at] in trace;
      FaultRests(w, trace[at], ev, written, key);
    case Crash(ev, at, after) =>
      assert trace[at] in trace;
      CrashTears(trace[at], after, key);
  }

  // ---- exactly when ----

  /** The one step that tears a folder, and the one that ends it: exactly when a folder is torn. */
  lemma StepTears(cfg: Config, w: World, step: Step, w': World, key: Key)
    requires Good(cfg, w) && DistinctNames(cfg) && HonestStep(cfg, w, step) && Next(cfg, w, step, w')
    ensures Torn(At(w', key)) <==> Tears(cfg, w, step, key) || (Torn(At(w, key)) && !Clears(cfg, w, step, key))
  {
    if CancelOf(step.ev, key) {
      CancelTears(cfg, w, step, w', key);
    } else {
      StepAdvances(cfg, w, step, w', key);
      if Torn(At(w, key)) {
        TornStays(cfg, w, step, w', key);
      }
    }
  }

  /** A cancellation of the key was cut short between its two removals, and none has got further since. */
  predicate TornBy(cfg: Config, worlds: seq<World>, steps: seq<Step>, n: nat, key: Key)
    requires n <= |steps| < |worlds|
  {
    exists i :: 0 <= i < n && Tears(cfg, worlds[i], steps[i], key) && NoneClears(cfg, worlds, steps, i + 1, n, key)
  }

  predicate NoneClears(cfg: Config, worlds: seq<World>, steps: seq<Step>, i: nat, n: nat, key: Key)
    requires n <= |steps| < |worlds|
  {
    forall j :: i <= j < n ==> !Clears(cfg, worlds[j], steps[j], key)
  }

  /** Exactly when a folder is torn. */
  lemma {:induction false} TornExactly(cfg: Config, worlds: seq<World>, steps: seq<Step>, n: nat, key: Key)
    requires DistinctNames(cfg) && HonestRun(cfg, worlds, steps) && n < |worlds|
    ensures Torn(At(worlds[n], key)) <==> TornBy(cfg, worlds, steps, n, key)
  {
    hide IsRun, HonestStep, Tears, Clears, Torn, At, TornBy, DistinctNames;
    NotTornAtFirst(cfg, worlds, steps, key);
    if n > 0 {
      TornExactly(cfg, worlds, steps, n - 1, key);
      RunStepTears(cfg, worlds, steps, n - 1, key);
      MoreTorn(cfg, worlds, steps, n, key);
    }
  }

  lemma NotTornAtFirst(cfg: Config, worlds: seq<World>, steps: seq<Step>, key: Key)
    requires IsRun(cfg, worlds, steps)
    ensures |worlds| == |steps| + 1 && !Torn(At(worlds[0], key)) && !TornBy(cfg, worlds, steps, 0, key)
  {
    hide Tears, NoneClears;
  }

  lemma RunStepTears(cfg: Config, worlds: seq<World>, steps: seq<Step>, n: nat, key: Key)
    requires DistinctNames(cfg) && HonestRun(cfg, worlds, steps) && n < |steps|
    ensures Torn(At(worlds[n + 1], key)) <==>
      Tears(cfg, worlds[n], steps[n], key) || (Torn(At(worlds[n], key)) && !Clears(cfg, worlds[n], steps[n], key))
  {
    RunKept(cfg, worlds, steps, n);
    hide Good, DistinctNames, Tears, Clears, Torn, At;
    StepTears(cfg, worlds[n], steps[n], worlds[n + 1], key);
  }

  lemma MoreTorn(cfg: Config, worlds: seq<World>, steps: seq<Step>, n: nat, key: Key)
    requires 0 < n <= |steps| < |worlds|
    ensures TornBy(cfg, worlds, steps, n, key) <==>
      || Tears(cfg, worlds[n - 1], steps[n - 1], key)
      || (TornBy(cfg, worlds, steps, n - 1, key) && !Clears(cfg, worlds[n - 1], steps[n - 1], key))
  {
    hide Tears, Clears;
    if Tears(cfg, worlds[n - 1], steps[n - 1], key) {
      assert NoneClears(cfg, worlds, steps, n, n, key);
    }
    if TornBy(cfg, worlds, steps, n - 1, key) && !Clears(cfg, worlds[n - 1], steps[n - 1], key) {
      var i :| 0 <= i < n - 1 && Tears(cfg, worlds[i], steps[i], key)
        && NoneClears(cfg, worlds, steps, i + 1, n - 1, key);
      assert NoneClears(cfg, worlds, steps, i + 1, n, key);
    }
    if TornBy(cfg, worlds, steps, n, key) {
      var i :| 0 <= i < n && Tears(cfg, worlds[i], steps[i], key) && NoneClears(cfg, worlds, steps, i + 1, n, key);
      if i < n - 1 {
        assert NoneClears(cfg, worlds, steps, i + 1, n - 1, key);
      }
    }
  }

  // ---- the durable prefix ----

  /** In every reachable world the committed offset is within bounds and on a boundary. It lies within
    * the synced bytes of the partial file, and those bytes are the first bytes of the source, exactly
    * unless a removal was cut short after the data went. */
  lemma DurablePrefix(cfg: Config, worlds: seq<World>, steps: seq<Step>, n: nat, key: Key)
    requires DistinctNames(cfg) && HonestRun(cfg, worlds, steps) && n < |worlds| && cfg.source.Some?
    requires key in worlds[n].folders && worlds[n].folders[key].sidecar.Some?
    ensures var f := worlds[n].folders[key]; var committed := f.sidecar.value.committed;
      && committed <= key.size && Aligned(committed, key.size)
      && (committed <= f.part.synced <= |f.part.data| && f.part.data[..committed] <= cfg.source.value(key)
          <==> !TornBy(cfg, worlds, steps, n, key))
  {
    RunKept(cfg, worlds, steps, n);
    assert FolderOk(cfg, worlds[n].published, key, worlds[n].folders[key]);
    TornExactly(cfg, worlds, steps, n, key);
    hide TornBy, IsRun;
  }

  /** Such a run: one byte is pushed and committed, then its owner cancels, and the receiver fails
    * after it has removed the data. */
  lemma TornRun(cfg: Config, key: Key, name: string, b: byte) returns (worlds: seq<World>, steps: seq<Step>)
    requires cfg.validSha(key.sha) && key.size == 1 && cfg.source.Some? && cfg.source.value(key) == [b]
    ensures HonestRun(cfg, worlds, steps) && |steps| == 3
    ensures Tears(cfg, worlds[2], steps[2], key) && Torn(At(worlds[3], key))
  {
    var w0 := World(map[], map[], map[], 0);
    var begin := Begin(key.peer, key.sha, 1, None, name);
    var chunk := Chunk(key.peer, Envelope(0, true, 0, 1, 1, key.sha, [b]));
    var cancel := Cancel(key.peer, key.sha, 1, None, true);
    var w1 := FirstBegin(cfg, w0, key, name);
    var w2 := FirstChunk(cfg, w1, key, name, b);
    assert Op(cfg, w2, cancel).trace[2].folders[key].part == EMPTY_FILE;
    var w3 := Op(cfg, w2, cancel).trace[2];
    worlds, steps := [w0, w1, w2, w3], [Complete(begin), Complete(chunk), Fault(cancel, 2, 0)];
    assert Faulted(w2, w3, cancel, 0) == w3;
    hide BeginOp, ChunkOp, CancelOp;
  }

  lemma FirstBegin(cfg: Config, w: World, key: Key, name: string) returns (v: World)
    requires cfg.validSha(key.sha) && key.size == 1 && w == World(map[], map[], map[], 0)
    ensures v == Final(cfg, w, Begin(key.peer, key.sha, 1, None, name))
    ensures var state := Sidecar(key, None, name, 0, None);
      && v.transfers == map[0 := Transfer(state, 0, false)]
      && v.folders == map[key := Folder(Some(state), EMPTY_FILE)]
  {
    v := Final(cfg, w, Begin(key.peer, key.sha, 1, None, name));
    assert Key(key.peer, key.sha, 1) == key;
    assert EMPTY_FILE.data[..0] == [];
  }

  lemma FirstChunk(cfg: Config, w: World, key: Key, name: string, b: byte) returns (v: World)
    requires key.size == 1
    requires var state := Sidecar(key, None, name, 0, None);
      && w.transfers == map[0 := Transfer(state, 0, false)]
      && w.folders == map[key := Folder(Some(state), EMPTY_FILE)]
    ensures var env := Envelope(0, true, 0, 1, 1, key.sha, [b]);
      v == Final(cfg, w, Chunk(key.peer, env)) && Acceptable(w.transfers[0], env)
    ensures key in v.folders && v.folders[key].sidecar == Some(Sidecar(key, None, name, 1, None))
  {
    v := Final(cfg, w, Chunk(key.peer, Envelope(0, true, 0, 1, 1, key.sha, [b])));
  }

  // ---- a torn folder does no harm ----

  /** A torn folder is refused at begin, so its missing bytes are never mistaken for data. */
  lemma TornIsRefused(cfg: Config, w: World, key: Key, token: Option<string>, name: string)
    requires key in w.folders && Torn(w.folders[key])
    ensures BeginOp(cfg, w, key.peer, key.sha, key.size, token, name).reply == Refused
    ensures var v := Final(cfg, w, Begin(key.peer, key.sha, key.size, token, name));
      v.folders == w.folders
  {
  }
}
