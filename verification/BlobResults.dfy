/** What a resumable push promises over whole runs of the receiver. */
module BlobResults {
  import opened Prelude
  import opened ResumableBlob
  import opened BlobSafety

  ghost predicate HonestRun(cfg: Config, worlds: seq<World>, steps: seq<Step>) {
    && IsRun(cfg, worlds, steps)
    && forall i :: 0 <= i < |steps| ==> HonestStep(cfg, worlds[i], steps[i])
  }

  predicate CancelOf(ev: Event, key: Key) {
    ev.Cancel? && ev.peer == key.peer && ev.sha == key.sha && ev.size == key.size
  }

  // ---- what only a cancellation can undo ----

  /** A sidecar stays, keeps its name, never falls back, and its bytes are never torn away. */
  predicate Advances(w: World, v: World, key: Key) {
    FolderAdvances(At(w, key), At(v, key))
  }

  function At(w: World, key: Key): Folder {
    if key in w.folders then w.folders[key] else Folder(None, EMPTY_FILE)
  }

  predicate FolderAdvances(f: Folder, g: Folder) {
    && (Torn(g) ==> Torn(f))
    && (f.sidecar.Some? ==>
          && g.sidecar.Some?
          && g.sidecar.value.name == f.sidecar.value.name
          && g.sidecar.value.committed >= f.sidecar.value.committed)
  }

  predicate AllAdvance(w: World, trace: seq<World>, key: Key) {
    forall v :: v in trace ==> Advances(w, v, key)
  }

  /** A folder whose sidecar is what a good transfer says it is not torn. */
  lemma PersistAdvances(cfg: Config, w: World, id: nat, t: Transfer, f: Folder, key: Key)
    requires Inv(cfg, w) && id in w.transfers && t.state.key == w.transfers[id].state.key
    requires t.state.name == w.transfers[id].state.name && t.state.committed >= w.transfers[id].state.committed
    requires t.state.committed <= |f.part.data| <= f.part.extent
    requires f.sidecar == Some(t.state) || f.sidecar == w.folders[t.state.key].sidecar
    ensures Advances(w, WithPair(w, id, t, f), key)
  {
    assert PairOk(cfg, w.published, w.transfers[id], w.folders[t.state.key]);
  }

  lemma SuspendAdvances(cfg: Config, w: World, peer: string, id: nat, key: Key)
    requires Inv(cfg, w)
    ensures AllAdvance(w, SuspendTrace(w, peer, id), key) && Advances(w, Suspended(w, peer, id), key)
  {
    if Suspends(w, peer, id) {
      var t := w.transfers[id];
      var f := w.folders[t.state.key];
      assert PairOk(cfg, w.published, t, f);
      PersistAdvances(cfg, w, id, t, f.(sidecar := Some(t.state)), key);
    }
  }

  lemma {:induction false} DisconnectAdvances(cfg: Config, w: World, peer: string, order: seq<nat>, key: Key)
    requires Inv(cfg, w)
    ensures AllAdvance(w, DisconnectTrace(w, peer, order), key)
    decreases order
  {
    if order != [] {
      var next := Suspended(w, peer, order[0]);
      SuspendKept(cfg, w, peer, order[0]);
      SuspendAdvances(cfg, w, peer, order[0], key);
      DisconnectAdvances(cfg, next, peer, order[1..], key);
      forall v | v in DisconnectTrace(next, peer, order[1..]) ensures Advances(w, v, key) {
        AdvancesTransitive(w, next, v, key);
      }
    }
  }

  lemma CommitAdvances(cfg: Config, w: World, id: nat, key: Key)
    requires Inv(cfg, w) && id in w.transfers
    ensures w.transfers[id].state.key in w.folders && AllAdvance(w, CommitTrace(w, id), key)
  {
    var t := w.transfers[id];
    var f := w.folders[t.state.key];
    assert PairOk(cfg, w.published, t, f);
    var f1 := f.(part := Sync(f.part));
    var t1 := t.(state := t.state.(committed := t.received));
    PersistAdvances(cfg, w, id, t, f1, key);
    PersistAdvances(cfg, w, id, t1, f1, key);
    PersistAdvances(cfg, w, id, t1, f1.(sidecar := Some(t1.state)), key);
  }

  /** Appending to the file of a good pair, then syncing it and persisting the new offset. */
  lemma AppendAdvances(cfg: Config, published: map<Path, bytes>, t: Transfer, f: Folder, data: bytes)
    requires PairOk(cfg, published, t, f) && !t.failed
    ensures var f1 := f.(part := WriteAt(f.part, t.received, data));
      var f2 := f1.(part := Sync(f1.part));
      && FolderAdvances(f, f1)
      && FolderAdvances(f, f2)
      && FolderAdvances(f, f2.(sidecar := Some(t.state.(committed := t.received + |data|))))
  {
  }

  /** The only folder a chunk can change, and what it can become. */
  lemma ChunkFolder(w: World, peer: string, env: Envelope, v: World) returns (g: Folder)
    requires v in ChunkOp(w, peer, env).trace && v.folders != w.folders
    ensures Owned(w, peer, env.id) && w.transfers[env.id].state.key in w.folders
    ensures v.folders == w.folders[w.transfers[env.id].state.key := g]
    ensures w.transfers[env.id].received <= |w.folders[w.transfers[env.id].state.key].part.data|
    ensures var t := w.transfers[env.id]; var f := w.folders[t.state.key];
      var f1 := f.(part := WriteAt(f.part, t.received, env.data));
      var f2 := f1.(part := Sync(f1.part));
      g == f1 || g == f2 || g == f2.(sidecar := Some(t.state.(committed := t.received + |env.data|)))
  {
    var t := w.transfers[env.id];
    g := v.folders[t.state.key];
  }

  lemma ChunkAdvances(cfg: Config, w: World, peer: string, env: Envelope, key: Key)
    requires Inv(cfg, w)
    ensures AllAdvance(w, ChunkOp(w, peer, env).trace, key)
  {
    forall v | v in ChunkOp(w, peer, env).trace ensures Advances(w, v, key) {
      if v.folders != w.folders {
        var g := ChunkFolder(w, peer, env, v);
        var t := w.transfers[env.id];
        AppendAdvances(cfg, w.published, t, w.folders[t.state.key], env.data);
      }
    }
  }

  lemma PublishFolder(cfg: Config, published: map<Path, bytes>, t: Transfer, f: Folder, path: Path)
    requires PairOk(cfg, published, t, f)
    ensures FolderAdvances(f, f.(sidecar := Some(t.state.(result := Some(path)))))
  {
  }

  lemma PublishAdvances(cfg: Config, w: World, id: nat, key: Key)
    requires Inv(cfg, w) && id in w.transfers && w.transfers[id].state.key in w.folders
    ensures AllAdvance(w, PublishTrace(cfg, w, id), key)
  {
    var t := w.transfers[id];
    var f := w.folders[t.state.key];
    PublishFolder(cfg, w.published, t, f, Target(cfg, t));
    forall v | v in PublishTrace(cfg, w, id)
      ensures At(v, key) == At(w, key)
        || (key == t.state.key && At(v, key).sidecar == Some(t.state.(result := Some(Target(cfg, t))))
          && At(v, key).part == f.part)
    {}
  }

  lemma CompleteAdvances(cfg: Config, w: World, id: nat, key: Key)
    requires Inv(cfg, w) && id in w.transfers && !w.transfers[id].failed
    requires w.transfers[id].state.result.None? && w.transfers[id].state.key in w.folders
    ensures AllAdvance(w, CompleteTrace(cfg, w, id), key)
  {
    if w.transfers[id].received == w.transfers[id].state.key.size {
      CommitKept(cfg, w, id);
      CommitAdvances(cfg, w, id, key);
      var v := CommitTrace(w, id)[2];
      assert Inv(cfg, v) && Advances(w, v, key);
      if Publishable(cfg, v, id) {
        PublishAdvances(cfg, v, id, key);
      }
    }
  }

  lemma FinishAdvances(cfg: Config, w: World, peer: string, id: nat, key: Key)
    requires Inv(cfg, w)
    ensures AllAdvance(w, FinishOp(cfg, w, peer, id).trace, key)
  {
    hide CompleteTrace, Completes, Inv;
    if Owned(w, peer, id) {
      ForgetResultKept(cfg, w, id);
      CompleteAdvances(cfg, ForgetResult(w, id), id, key);
      assert Advances(w, ForgetResult(w, id), key);
    }
  }

  lemma OpenAdvances(cfg: Config, w: World, state: Sidecar, key: Key)
    requires state.key in w.folders && state.committed <= |w.folders[state.key].part.data|
    requires FileOk(w.folders[state.key].part)
    requires var found := w.folders[state.key].sidecar;
      if found.Some? then found.value.committed == state.committed && found.value.name == state.name
        else state.committed == 0
    ensures AllAdvance(w, OpenTrace(w, state), key)
  {
  }

  /** What begin reopens: the folder, with other transfers of the key closed. */
  function Cleared(w: World, key: Key): World {
    CloseKey(EnsureFolder(w, key), key)
  }

  lemma ReopenAdvances(cfg: Config, w: World, k: Key, token: Option<string>, name: string, key: Key)
    requires Inv(cfg, w)
    requires var w2 := Cleared(w, k); StoredState(w2.folders[k], k, token, name).committed <= |w2.folders[k].part.data|
    requires StoredState(Cleared(w, k).folders[k], k, token, name).key == k
    ensures var w2 := Cleared(w, k);
      AllAdvance(w, OpenTrace(w2, StoredState(w2.folders[k], k, token, name).(token := token)), key)
  {
    FileOf(cfg, w, k);
    var w2 := Cleared(w, k);
    assert At(w2, key) == At(w, key);
    OpenAdvances(cfg, w2, StoredState(w2.folders[k], k, token, name).(token := token), key);
    hide OpenTrace, FolderAdvances, Inv;
  }

  lemma BeginAdvances(cfg: Config, w: World, peer: string, sha: string, size: int, token: Option<string>,
                      name: string, key: Key)
    requires Inv(cfg, w)
    ensures AllAdvance(w, BeginOp(cfg, w, peer, sha, size, token, name).trace, key)
  {
    forall v | v in BeginOp(cfg, w, peer, sha, size, token, name).trace ensures Advances(w, v, key) {
      BeginWorlds(cfg, w, peer, sha, size, token, name, v);
      SameAdvances(w, key);
      hide BeginOp, OpenTrace, FolderAdvances, Inv;
      if v != w {
        var k := Key(peer, sha, size);
        if v in [EnsureFolder(w, k), Cleared(w, k)] {
          assert At(v, key) == At(w, key);
        } else {
          ReopenAdvances(cfg, w, k, token, name, key);
        }
      }
    }
  }

  lemma SameAdvances(w: World, key: Key)
    ensures Advances(w, w, key)
  {
  }

  lemma FileOf(cfg: Config, w: World, key: Key)
    requires Inv(cfg, w)
    ensures FileOk(At(w, key).part)
  {
    assert key in w.folders ==> FolderOk(cfg, w.published, key, w.folders[key]);
  }

  lemma CancelAdvances(cfg: Config, w: World, ev: Event, key: Key)
    requires ev.Cancel? && !CancelOf(ev, key)
    ensures AllAdvance(w, Op(cfg, w, ev).trace, key)
  {
  }

  lemma OpAdvances(cfg: Config, w: World, ev: Event, key: Key)
    requires Good(cfg, w) && Honest(cfg, w, ev) && !CancelOf(ev, key)
    ensures AllAdvance(w, Op(cfg, w, ev).trace, key)
  {
    match ev
    case Begin(peer, sha, size, token, name) => BeginAdvances(cfg, w, peer, sha, size, token, name, key);
    case Chunk(peer, env) => ChunkAdvances(cfg, w, peer, env, key);
    case Finish(peer, id) => FinishAdvances(cfg, w, peer, id, key);
    case Cancel(peer, sha, size, token, partFirst) => CancelAdvances(cfg, w, ev, key);
    case Disconnect(peer, order) => DisconnectAdvances(cfg, w, peer, order, key);
    case RemoveFile(path) =>
  }

  /** No step but a cancellation of the key makes its durable state fall back. */
  lemma StepAdvances(cfg: Config, w: World, step: Step, w': World, key: Key)
    requires Good(cfg, w) && DistinctNames(cfg) && HonestStep(cfg, w, step) && Next(cfg, w, step, w')
    requires !CancelOf(step.ev, key)
    ensures Advances(w, w', key)
  {
    OpAdvances(cfg, w, step.ev, key);
    TraceKept(cfg, w, step.ev);
    match step
    case Complete(ev) =>
    case Fault(ev, at, written) =>
      assert Op(cfg, w, ev).trace[at] in Op(cfg, w, ev).trace;
      FaultAdvances(cfg, w, Op(cfg, w, ev).trace[at], ev, written, key);
    case Crash(ev, at, after) =>
      assert Op(cfg, w, ev).trace[at] in Op(cfg, w, ev).trace;
      CrashAdvances(cfg, Op(cfg, w, ev).trace[at], after, key);
  }

  lemma FaultAdvances(cfg: Config, w: World, v: World, ev: Event, written: nat, key: Key)
    requires Inv(cfg, v)
    ensures Advances(v, Faulted(w, v, ev, written), key)
  {
  }

  lemma CrashAdvances(cfg: Config, w: World, after: map<Key, Folder>, key: Key)
    requires Inv(cfg, w) && CrashImage(w.folders, after)
    ensures Advances(w, World(map[], after, w.published, w.nextId), key)
  {
    if key in w.folders {
      assert FolderOk(cfg, w.published, key, w.folders[key]);
    }
  }

  lemma RunStepAdvances(cfg: Config, worlds: seq<World>, steps: seq<Step>, n: nat, key: Key)
    requires DistinctNames(cfg) && HonestRun(cfg, worlds, steps) && n < |steps| && !CancelOf(steps[n].ev, key)
    ensures Advances(worlds[n], worlds[n + 1], key)
  {
    RunKept(cfg, worlds, steps, n);
    StepAdvances(cfg, worlds[n], steps[n], worlds[n + 1], key);
  }

  lemma AdvancesTransitive(u: World, v: World, w: World, key: Key)
    requires Advances(u, v, key) && Advances(v, w, key)
    ensures Advances(u, w, key)
  {
  }

  lemma {:induction false} RunAdvances(cfg: Config, worlds: seq<World>, steps: seq<Step>, m: nat, n: nat, key: Key)
    requires DistinctNames(cfg) && HonestRun(cfg, worlds, steps) && m <= n < |worlds|
    requires forall i :: m <= i < n ==> !CancelOf(steps[i].ev, key)
    ensures Advances(worlds[m], worlds[n], key)
  {
    if m < n {
      RunAdvances(cfg, worlds, steps, m, n - 1, key);
      RunStepAdvances(cfg, worlds, steps, n - 1, key);
      AdvancesTransitive(worlds[m], worlds[n - 1], worlds[n], key);
    }
  }

  // ---- receipts ----

  ghost predicate InjectiveHash(cfg: Config) {
    forall a, b :: cfg.hash(a) == cfg.hash(b) ==> a == b
  }

  lemma CompletedFacts(cfg: Config, w: World, id: nat)
    requires id in w.transfers && w.transfers[id].state.key in w.folders && Completes(cfg, w, id)
    ensures var trace, t := CompleteTrace(cfg, w, id), w.transfers[id];
      && Target(cfg, t) in trace[|trace| - 1].published
      && (|w.folders[t.state.key].part.data| == t.state.key.size
          ==> Matches(cfg, trace[|trace| - 1].published[Target(cfg, t)], t.state.key))
      && id !in trace[|trace| - 1].transfers
  {
  }

  /** What holds of the world in which a finish has just been answered with a receipt. */
  lemma ReceiptFacts(cfg: Config, w: World, peer: string, id: nat)
    requires Inv(cfg, w) && DistinctNames(cfg) && FinishOp(cfg, w, peer, id).reply.Receipt?
    ensures id in w.transfers && w.transfers[id].state.key in w.folders && w.transfers[id].state.key.peer == peer
    ensures var t := w.transfers[id]; var v := Final(cfg, w, Finish(peer, id));
      && FinishOp(cfg, w, peer, id).reply == Receipt(Target(cfg, t), t.state.key.size, t.state.key.sha)
      && Target(cfg, t) in v.published && Matches(cfg, v.published[Target(cfg, t)], t.state.key)
      && w.folders[t.state.key].sidecar.Some? && w.folders[t.state.key].sidecar.value.name == t.state.name
      && id !in v.transfers
  {
    PairOf(cfg, w, id);
    hide Inv, DistinctNames, CompleteTrace;
    if !(w.transfers[id].state.result.Some? && w.transfers[id].state.result.value in w.published) {
      CompletedFacts(cfg, ForgetResult(w, id), id);
    }
  }

  /** Whatever the senders sent, and however the receiver was disturbed, a published file has the
    * announced size and hash; with an injective hash it is the file that was announced. */
  lemma ReceiptIsSource(cfg: Config, worlds: seq<World>, steps: seq<Step>, n: nat, peer: string, id: nat,
                        announced: bytes)
    requires DistinctNames(cfg) && InjectiveHash(cfg) && HonestRun(cfg, worlds, steps) && n < |worlds|
    requires FinishOp(cfg, worlds[n], peer, id).reply.Receipt?
    requires FinishOp(cfg, worlds[n], peer, id).reply.sha == cfg.hash(announced)
    ensures var path := FinishOp(cfg, worlds[n], peer, id).reply.path;
      var v := Final(cfg, worlds[n], Finish(peer, id));
      path in v.published && v.published[path] == announced
  {
    RunKept(cfg, worlds, steps, n);
    ReceiptFacts(cfg, worlds[n], peer, id);
  }

  /** Repeating a finish, after a lost reply or a restart, gives the same receipt, as long as
    * the content was not cancelled in between. */
  lemma RepeatedFinish(cfg: Config, worlds: seq<World>, steps: seq<Step>, m: nat, n: nat,
                       peer: string, first: nat, second: nat)
    requires DistinctNames(cfg) && HonestRun(cfg, worlds, steps) && m <= n < |worlds|
    requires FinishOp(cfg, worlds[m], peer, first).reply.Receipt?
      && FinishOp(cfg, worlds[n], peer, second).reply.Receipt?
    requires first in worlds[m].transfers && second in worlds[n].transfers
    requires worlds[m].transfers[first].state.key == worlds[n].transfers[second].state.key
    requires forall i :: m <= i < n ==> !CancelOf(steps[i].ev, worlds[m].transfers[first].state.key)
    ensures FinishOp(cfg, worlds[m], peer, first).reply == FinishOp(cfg, worlds[n], peer, second).reply
  {
    RunKept(cfg, worlds, steps, m);
    RunKept(cfg, worlds, steps, n);
    ReceiptFacts(cfg, worlds[m], peer, first);
    ReceiptFacts(cfg, worlds[n], peer, second);
    RunAdvances(cfg, worlds, steps, m, n, worlds[m].transfers[first].state.key);
  }

  // ---- admission ----

  predicate NoNewTransfers(w: World, v: World) {
    v.transfers.Keys <= w.transfers.Keys
  }

  lemma {:induction false} DisconnectOpensNone(w: World, peer: string, order: seq<nat>)
    ensures forall v :: v in DisconnectTrace(w, peer, order) ==> NoNewTransfers(w, v)
    decreases order
  {
    if order != [] {
      var id := order[0];
      DisconnectOpensNone(Suspended(w, peer, id), peer, order[1..]);
    }
  }

  lemma Fewer(w: World, v: World)
    requires NoNewTransfers(w, v) && |w.transfers| <= MAX_TRANSFERS
    ensures |v.transfers| <= MAX_TRANSFERS
  {
    SmallerSet(v.transfers.Keys, w.transfers.Keys);
    assert |w.transfers| == |w.transfers.Keys| && |v.transfers| == |v.transfers.Keys|;
  }

  /** A begin opens its transfer below the limit, or in place of one of the same key. */
  lemma OpenLimited(w: World, key: Key, v: World)
    requires |w.transfers| <= MAX_TRANSFERS && (|w.transfers| < MAX_TRANSFERS || InUse(w, key))
    requires v.transfers.Keys <= CloseKey(w, key).transfers.Keys + {w.nextId}
    ensures |v.transfers| <= MAX_TRANSFERS
  {
    var kept := CloseKey(w, key).transfers.Keys;
    SmallerSet(v.transfers.Keys, kept + {w.nextId});
    if InUse(w, key) {
      var previous :| previous in w.transfers && w.transfers[previous].state.key == key;
      SmallerSet(kept, w.transfers.Keys - {previous});
    } else {
      SmallerSet(kept, w.transfers.Keys);
    }
    assert |w.transfers| == |w.transfers.Keys| && |v.transfers| == |v.transfers.Keys|;
  }

  lemma OpenOpensOne(w: World, state: Sidecar, v: World)
    requires state.key in w.folders && state.committed <= |w.folders[state.key].part.data|
    requires v in OpenTrace(w, state)
    ensures v.transfers.Keys <= w.transfers.Keys + {w.nextId}
  {
  }

  lemma BeginLimited(cfg: Config, w: World, peer: string, sha: string, size: int, token: Option<string>, name: string,
                     v: World)
    requires v in BeginOp(cfg, w, peer, sha, size, token, name).trace && |w.transfers| <= MAX_TRANSFERS
    ensures |v.transfers| <= MAX_TRANSFERS
  {
    if Admissible(cfg, w, peer, sha, size, token) {
      var key := Key(peer, sha, size);
      var w1 := EnsureFolder(w, key);
      var w2 := CloseKey(w1, key);
      var stored := StoredState(w1.folders[key], key, token, name);
      if v in [w, w1, w2] {
        Fewer(w, v);
      } else {
        OpenOpensOne(w2, stored.(token := token), v);
        OpenLimited(w, key, v);
      }
    } else {
      Fewer(w, v);
    }
  }

  lemma CompleteOpensNone(cfg: Config, w: World, id: nat, v: World)
    requires id in w.transfers && w.transfers[id].state.key in w.folders && v in CompleteTrace(cfg, w, id)
    ensures NoNewTransfers(w, v)
  {
    hide Publishable;
  }

  lemma FinishOpensNone(cfg: Config, w: World, peer: string, id: nat, v: World)
    requires v in FinishOp(cfg, w, peer, id).trace
    ensures NoNewTransfers(w, v)
  {
    hide CompleteTrace, Completes;
    if Owned(w, peer, id) && w.transfers[id].state.key in w.folders
      && v in CompleteTrace(cfg, ForgetResult(w, id), id) {
      CompleteOpensNone(cfg, ForgetResult(w, id), id, v);
    }
  }

  lemma OpLimited(cfg: Config, w: World, ev: Event, v: World)
    requires v in Op(cfg, w, ev).trace && |w.transfers| <= MAX_TRANSFERS
    ensures |v.transfers| <= MAX_TRANSFERS
  {
    match ev
    case Begin(peer, sha, size, token, name) => BeginLimited(cfg, w, peer, sha, size, token, name, v);
    case Finish(peer, id) => FinishOpensNone(cfg, w, peer, id, v); Fewer(w, v);
    case Disconnect(peer, order) => DisconnectOpensNone(w, peer, order); Fewer(w, v);
    case _ => Fewer(w, v);
  }

  /** At most four transfers are ever open. */
  lemma {:induction false} TransferLimit(cfg: Config, worlds: seq<World>, steps: seq<Step>, n: nat)
    requires IsRun(cfg, worlds, steps) && n < |worlds|
    ensures |worlds[n].transfers| <= MAX_TRANSFERS
  {
    hide Op, CrashImage;
    if n > 0 {
      TransferLimit(cfg, worlds, steps, n - 1);
      var w, step := worlds[n - 1], steps[n - 1];
      match step
      case Complete(ev) =>
        OpLimited(cfg, w, ev, worlds[n]);
      case Fault(ev, at, written) =>
        var v := Op(cfg, w, ev).trace[at];
        OpLimited(cfg, w, ev, v);
        Fewer(v, worlds[n]);
      case Crash(ev, at, after) =>
    }
  }
}
