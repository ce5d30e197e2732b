/** The sending side (federation-blob-sender.ts): four chunks, an ordered barrier, and a new
  * begin after every lost connection, run against the receiver of ResumableBlob. */
module BlobSender {
  import opened Prelude
  import opened ResumableBlob
  import opened BlobSafety
  import opened BlobResults
  import opened BlobAnswers
  import opened BlobDelivery

  /** How an exchange goes: it arrives, or a call fails at the receiver part-way through it, or the
    * link drops and any receiver steps happen before the next connection. */
  datatype Course = Arrives | Fails(at: nat, written: nat) | Drops(meanwhile: seq<Step>)

  /** One exchange with the receiver, and what others do to the receiver first. */
  datatype Turn = Turn(others: seq<Step>, course: Course)

  datatype Ack = Ack(offset: nat, received: nat, committed: nat)

  datatype Result =
    | Delivered(path: Path)
    | Waiting
    | BeginRejected
    | CheckpointRejected
    | FinishRejected
    | BadCommittedOffset
    | BadAcknowledgement
    | BadReceipt

  // ---- the receiver as the sender's environment ----

  /** A step if it is possible here, and nothing otherwise. */
  function Take(cfg: Config, w: World, step: Step): World {
    var trace := Op(cfg, w, step.ev).trace;
    match step
    case Complete(ev) => Final(cfg, w, ev)
    case Fault(ev, at, written) => if at < |trace| then Faulted(w, trace[at], ev, written) else w
    case Crash(ev, at, after) =>
      if at < |trace| && CrashImage(trace[at].folders, after)
      then World(map[], after, trace[at].published, trace[at].nextId) else w
  }

  /** Steps of a receiver that keeps the sidecar of the key and hears honest senders only. */
  function Meanwhile(cfg: Config, w: World, steps: seq<Step>, key: Key): World
    decreases steps
  {
    if steps == [] then w
    else if CancelOf(steps[0].ev, key) || !Honest(cfg, w, steps[0].ev) then Meanwhile(cfg, w, steps[1..], key)
    else Meanwhile(cfg, Take(cfg, w, steps[0]), steps[1..], key)
  }

  /** Events of other transfers, other contents and other peers. */
  predicate Foreign(step: Step, key: Key, id: nat) {
    match step
    case Crash(ev, at, after) => false
    case _ =>
      match step.ev
      case Begin(peer, sha, size, token, name) => peer != key.peer || sha != key.sha || size != key.size
      case Chunk(peer, env) => env.id != id
      case Finish(peer, other) => other != id
      case Cancel(peer, sha, size, token, partFirst) => !CancelOf(step.ev, key)
      case Disconnect(peer, order) => peer != key.peer
      case RemoveFile(path) => true
  }

  function Others(cfg: Config, w: World, steps: seq<Step>, key: Key, id: nat): World
    decreases steps
  {
    if steps == [] then w
    else if !Foreign(steps[0], key, id) || !Honest(cfg, w, steps[0].ev) then Others(cfg, w, steps[1..], key, id)
    else Others(cfg, Take(cfg, w, steps[0]), steps[1..], key, id)
  }

  /** Nothing of what others do is passed over: a step is taken unless it is a crash or concerns the
    * sender's own content, transfer or peer. */
  lemma OthersAct(cfg: Config, w: World, step: Step, key: Key, id: nat)
    requires Honest(cfg, w, step.ev) && !step.Crash?
    requires match step.ev
      case Begin(peer, sha, size, _, _) => (peer, sha, size) != (key.peer, key.sha, key.size)
      case Chunk(_, env) => env.id != id
      case Finish(_, other) => other != id
      case Cancel(peer, sha, size, _, _) => (peer, sha, size) != (key.peer, key.sha, key.size)
      case Disconnect(peer, _) => peer != key.peer
      case RemoveFile(_) => true
    ensures Others(cfg, w, [step], key, id) == Take(cfg, w, step)
    ensures Others(cfg, w, [step], key, id) == w || Next(cfg, w, step, Others(cfg, w, [step], key, id))
  {
    assert [step][1..] == [];
    hide Op;
  }

  /** While the link is down the receiver may crash and restart as well; only the sender's own content is not
    * cancelled then. */
  lemma MeanwhileActs(cfg: Config, w: World, step: Step, w': World, key: Key)
    requires Honest(cfg, w, step.ev) && Next(cfg, w, step, w')
    requires step.ev.Cancel? ==> (step.ev.peer, step.ev.sha, step.ev.size) != (key.peer, key.sha, key.size)
    ensures Meanwhile(cfg, w, [step], key) == w'
  {
    assert [step][1..] == [];
    hide Op;
  }

  lemma TakeKept(cfg: Config, w: World, step: Step)
    requires Good(cfg, w) && DistinctNames(cfg) && Honest(cfg, w, step.ev)
    ensures Good(cfg, Take(cfg, w, step))
    ensures forall key :: !CancelOf(step.ev, key) ==> Advances(w, Take(cfg, w, step), key)
  {
    var v := Take(cfg, w, step);
    if v != w {
      assert Next(cfg, w, step, v);
      NextKept(cfg, w, step, v);
      forall key | !CancelOf(step.ev, key) ensures Advances(w, v, key) { StepAdvances(cfg, w, step, v, key); }
    }
  }

  lemma {:induction false} MeanwhileKept(cfg: Config, w: World, steps: seq<Step>, key: Key)
    requires Good(cfg, w) && DistinctNames(cfg)
    ensures Good(cfg, Meanwhile(cfg, w, steps, key)) && Advances(w, Meanwhile(cfg, w, steps, key), key)
    decreases steps
  {
    if steps != [] {
      if CancelOf(steps[0].ev, key) || !Honest(cfg, w, steps[0].ev) {
        MeanwhileKept(cfg, w, steps[1..], key);
      } else {
        TakeKept(cfg, w, steps[0]);
        MeanwhileKept(cfg, Take(cfg, w, steps[0]), steps[1..], key);
        AdvancesTransitive(w, Take(cfg, w, steps[0]), Meanwhile(cfg, w, steps, key), key);
      }
    }
  }

  lemma TakeClear(cfg: Config, w: World, step: Step, key: Key)
    requires Good(cfg, w) && DistinctNames(cfg) && Clear(cfg, w.published, key)
    ensures Clear(cfg, Take(cfg, w, step).published, key)
  {
    hide Clear;
    var v := Take(cfg, w, step);
    if v != w {
      assert Next(cfg, w, step, v);
      StepClear(cfg, w, step, v, key);
    }
  }

  lemma {:induction false} MeanwhileClear(cfg: Config, w: World, steps: seq<Step>, key: Key)
    requires Good(cfg, w) && DistinctNames(cfg) && Clear(cfg, w.published, key)
    ensures Clear(cfg, Meanwhile(cfg, w, steps, key).published, key)
    decreases steps
  {
    hide Clear, Good, Take;
    if steps != [] {
      if CancelOf(steps[0].ev, key) || !Honest(cfg, w, steps[0].ev) {
        MeanwhileClear(cfg, w, steps[1..], key);
      } else {
        TakeKept(cfg, w, steps[0]);
        TakeClear(cfg, w, steps[0], key);
        MeanwhileClear(cfg, Take(cfg, w, steps[0]), steps[1..], key);
      }
    }
  }

  lemma {:induction false} OthersClear(cfg: Config, w: World, steps: seq<Step>, key: Key, id: nat)
    requires Good(cfg, w) && DistinctNames(cfg) && Clear(cfg, w.published, key)
    ensures Clear(cfg, Others(cfg, w, steps, key, id).published, key)
    decreases steps
  {
    hide Clear, Good, Take;
    if steps != [] {
      if !Foreign(steps[0], key, id) || !Honest(cfg, w, steps[0].ev) {
        OthersClear(cfg, w, steps[1..], key, id);
      } else {
        TakeKept(cfg, w, steps[0]);
        TakeClear(cfg, w, steps[0], key);
        OthersClear(cfg, Take(cfg, w, steps[0]), steps[1..], key, id);
      }
    }
  }

  // ---- nobody else touches an open transfer ----

  predicate Untouched(w: World, v: World, key: Key, id: nat) {
    && key in v.folders && key in w.folders && v.folders[key] == w.folders[key]
    && id in v.transfers && id in w.transfers && v.transfers[id] == w.transfers[id]
  }

  predicate AllUntouched(w: World, trace: seq<World>, key: Key, id: nat) {
    forall v :: v in trace ==> Untouched(w, v, key, id)
  }

  predicate Holds(w: World, key: Key, id: nat) {
    id in w.transfers && w.transfers[id].state.key == key && key in w.folders && id < w.nextId && Exclusive(w.transfers)
  }

  lemma {:induction false} DisconnectUntouched(w: World, peer: string, order: seq<nat>, key: Key, id: nat)
    requires Holds(w, key, id) && peer != key.peer
    ensures AllUntouched(w, DisconnectTrace(w, peer, order), key, id)
    decreases order
  {
    if order != [] {
      DisconnectUntouched(Suspended(w, peer, order[0]), peer, order[1..], key, id);
    }
  }

  lemma ChunkUntouched(w: World, peer: string, env: Envelope, key: Key, id: nat)
    requires Holds(w, key, id) && env.id != id
    ensures AllUntouched(w, ChunkOp(w, peer, env).trace, key, id)
  {
  }

  lemma CommitUntouched(w: World, other: nat, key: Key, id: nat)
    requires Holds(w, key, id) && other in w.transfers && other != id && w.transfers[other].state.key in w.folders
    ensures AllUntouched(w, CommitTrace(w, other), key, id) && Holds(CommitTrace(w, other)[2], key, id)
  {
  }

  lemma PublishUntouched(cfg: Config, w: World, other: nat, key: Key, id: nat)
    requires Holds(w, key, id) && other in w.transfers && other != id && w.transfers[other].state.key in w.folders
    ensures AllUntouched(w, PublishTrace(cfg, w, other), key, id)
  {
  }

  lemma CompleteUntouched(cfg: Config, w: World, other: nat, key: Key, id: nat)
    requires Holds(w, key, id) && other in w.transfers && other != id && w.transfers[other].state.key in w.folders
    ensures AllUntouched(w, CompleteTrace(cfg, w, other), key, id)
  {
    CommitUntouched(w, other, key, id);
    if Completes(cfg, w, other) {
      var v := CommitTrace(w, other)[2];
      assert Untouched(w, v, key, id);
      PublishUntouched(cfg, v, other, key, id);
    }
  }

  lemma FinishUntouched(cfg: Config, w: World, peer: string, other: nat, key: Key, id: nat)
    requires Holds(w, key, id) && other != id
    ensures AllUntouched(w, FinishOp(cfg, w, peer, other).trace, key, id)
  {
    if Owned(w, peer, other) && w.transfers[other].state.key in w.folders {
      var w1 := ForgetResult(w, other);
      assert Holds(w1, key, id) && Untouched(w, w1, key, id);
      CompleteUntouched(cfg, w1, other, key, id);
    }
  }

  lemma OpenUntouched(w: World, state: Sidecar, key: Key, id: nat)
    requires Holds(w, key, id) && state.key != key
    requires state.key in w.folders && state.committed <= |w.folders[state.key].part.data|
    ensures AllUntouched(w, OpenTrace(w, state), key, id)
  {
  }

  lemma BeginUntouched(cfg: Config, w: World, peer: string, sha: string, size: int, token: Option<string>,
                       name: string, key: Key, id: nat)
    requires Holds(w, key, id) && (peer != key.peer || sha != key.sha || size != key.size)
    ensures AllUntouched(w, BeginOp(cfg, w, peer, sha, size, token, name).trace, key, id)
  {
    forall v | v in BeginOp(cfg, w, peer, sha, size, token, name).trace ensures Untouched(w, v, key, id) {
      BeginWorlds(cfg, w, peer, sha, size, token, name, v);
      if v != w {
        var k := Key(peer, sha, size);
        var w2 := Cleared(w, k);
        hide BeginOp, OpenTrace;
        assert Untouched(w, EnsureFolder(w, k), key, id) && Untouched(w, w2, key, id) && Holds(w2, key, id);
        if v != EnsureFolder(w, k) && v != w2 {
          OpenUntouched(w2, StoredState(w2.folders[k], k, token, name).(token := token), key, id);
        }
      }
    }
  }

  lemma CancelUntouched(cfg: Config, w: World, ev: Event, key: Key, id: nat)
    requires Holds(w, key, id) && ev.Cancel? && !CancelOf(ev, key)
    ensures AllUntouched(w, Op(cfg, w, ev).trace, key, id)
  {
    if ValidIdentity(cfg, ev.sha, ev.size) {
      var other := Key(ev.peer, ev.sha, ev.size);
      var w1 := CloseKey(w, other);
      assert other != key && Untouched(w, w1, key, id);
      forall v | v in CancelOp(cfg, w, ev.peer, ev.sha, ev.size, ev.token, ev.partFirst).trace
        ensures Untouched(w, v, key, id)
      {
        if v != w {
          CancelledWorld(cfg, w, ev, other, v);
        }
        hide CancelOp, CloseKey;
      }
    }
  }

  /** A cancellation closes transfers of its content, then changes at most the folder of it. */
  lemma CancelledWorld(cfg: Config, w: World, ev: Event, key: Key, v: World)
    requires ev.Cancel? && ValidIdentity(cfg, ev.sha, ev.size) && key == Key(ev.peer, ev.sha, ev.size)
    requires v in CancelOp(cfg, w, ev.peer, ev.sha, ev.size, ev.token, ev.partFirst).trace && v != w
    ensures v.transfers == CloseKey(w, key).transfers
    ensures forall k :: k != key ==>
      (k in v.folders <==> k in w.folders) && (k in v.folders ==> v.folders[k] == w.folders[k])
  {
  }

  lemma OpUntouched(cfg: Config, w: World, step: Step, v: World, key: Key, id: nat)
    requires Holds(w, key, id) && Foreign(step, key, id) && v in Op(cfg, w, step.ev).trace
    ensures Untouched(w, v, key, id)
  {
    match step.ev
    case Begin(peer, sha, size, token, name) => BeginUntouched(cfg, w, peer, sha, size, token, name, key, id);
    case Chunk(peer, env) => ChunkUntouched(w, peer, env, key, id);
    case Finish(peer, other) => FinishUntouched(cfg, w, peer, other, key, id);
    case Cancel(peer, sha, size, token, partFirst) => CancelUntouched(cfg, w, step.ev, key, id);
    case Disconnect(peer, order) => DisconnectUntouched(w, peer, order, key, id);
    case RemoveFile(path) =>
  }

  lemma FaultUntouched(cfg: Config, w: World, step: Step, v: World, key: Key, id: nat)
    requires Holds(w, key, id) && Foreign(step, key, id) && step.Fault? && v in Op(cfg, w, step.ev).trace
    requires Untouched(w, v, key, id) && Exclusive(v.transfers)
    ensures Untouched(w, Faulted(w, v, step.ev, step.written), key, id)
  {
  }

  lemma {:induction false} OthersKept(cfg: Config, w: World, steps: seq<Step>, key: Key, id: nat)
    requires Good(cfg, w) && DistinctNames(cfg) && id in w.transfers && w.transfers[id].state.key == key
    ensures Good(cfg, Others(cfg, w, steps, key, id)) && Untouched(w, Others(cfg, w, steps, key, id), key, id)
    decreases steps
  {
    if steps != [] {
      var v := if !Foreign(steps[0], key, id) || !Honest(cfg, w, steps[0].ev) then w else Take(cfg, w, steps[0]);
      if v != w {
        TakeKept(cfg, w, steps[0]);
        TakeUntouched(cfg, w, steps[0], key, id);
      }
      OthersKept(cfg, v, steps[1..], key, id);
    }
  }

  lemma TakeUntouched(cfg: Config, w: World, step: Step, key: Key, id: nat)
    requires Good(cfg, w) && DistinctNames(cfg) && Honest(cfg, w, step.ev)
    requires id in w.transfers && w.transfers[id].state.key == key && Foreign(step, key, id)
    ensures Untouched(w, Take(cfg, w, step), key, id)
  {
    var trace := Op(cfg, w, step.ev).trace;
    TraceKept(cfg, w, step.ev);
    match step
    case Complete(ev) => OpUntouched(cfg, w, step, trace[|trace| - 1], key, id);
    case Fault(ev, at, written) =>
      if at < |trace| {
        OpUntouched(cfg, w, step, trace[at], key, id);
        FaultUntouched(cfg, w, step, trace[at], key, id);
      }
  }

  // ---- the sender's own exchanges ----

  /** The receiver has the sender's transfer open at `offset`, with `committed` durable. */
  predicate Open(w: World, key: Key, id: nat, offset: nat, committed: nat) {
    && id in w.transfers && !w.transfers[id].failed
    && w.transfers[id].state.key == key
    && w.transfers[id].received == offset
    && w.transfers[id].state.committed == committed
    && key in w.folders && w.folders[key].sidecar.Some?
    && w.folders[key].sidecar.value.committed == committed
  }

  function Durable(w: World, key: Key): nat {
    if key in w.folders && w.folders[key].sidecar.Some? then w.folders[key].sidecar.value.committed else 0
  }

  lemma BeginEffect(cfg: Config, w: World, key: Key, token: string, name: string)
    requires Good(cfg, w) && DistinctNames(cfg)
    requires BeginOp(cfg, w, key.peer, key.sha, key.size, Some(token), name).reply.Begun?
    ensures var o := BeginOp(cfg, w, key.peer, key.sha, key.size, Some(token), name);
      var v := Final(cfg, w, Begin(key.peer, key.sha, key.size, Some(token), name));
      && Good(cfg, v) && Open(v, key, o.reply.id, o.reply.committed, o.reply.committed)
      && o.reply.committed == Durable(w, key) <= key.size && Aligned(o.reply.committed, key.size)
  {
    var ev := Begin(key.peer, key.sha, key.size, Some(token), name);
    TraceKept(cfg, w, ev);
    OpSettled(cfg, w, ev);
  }

  function Frame(key: Key, source: bytes, id: nat, offset: nat): Envelope
    requires offset <= |source|
  {
    Envelope(id, true, offset / CHUNK_BYTES, (key.size + CHUNK_BYTES - 1) / CHUNK_BYTES, key.size, key.sha,
             source[offset..Min(offset + CHUNK_BYTES, |source|)])
  }

  predicate Sends(cfg: Config, key: Key, source: bytes) {
    cfg.source.Some? && cfg.source.value(key) == source && |source| == key.size && cfg.hash(source) == key.sha
  }

  /** What an accepted chunk leaves in memory and in the sidecar. */
  lemma AcceptedChunk(w: World, key: Key, env: Envelope, offset: nat, committed: nat)
    requires Open(w, key, env.id, offset, committed) && Acceptable(w.transfers[env.id], env)
    requires offset <= |w.folders[key].part.data|
    ensures var o, next := ChunkOp(w, key.peer, env), offset + |env.data|;
      && o.reply == Done
      && Open(o.trace[|o.trace| - 1], key, env.id, next,
              if next >= committed + COMMIT_BYTES || next == key.size then next else committed)
  {
    hide WriteAt, Acceptable;
  }

  /** A frame sent at the receiver's offset is accepted, and committed exactly when it ends a window. */
  lemma ChunkEffect(cfg: Config, w: World, key: Key, source: bytes, id: nat, offset: nat, committed: nat)
    requires Good(cfg, w) && DistinctNames(cfg) && Sends(cfg, key, source)
    requires Open(w, key, id, offset, committed) && offset < key.size
    ensures var env := Frame(key, source, id, offset);
      var next := Min(offset + CHUNK_BYTES, key.size);
      var v := Final(cfg, w, Chunk(key.peer, env));
      && ChunkOp(w, key.peer, env).reply == Done && Good(cfg, v) && next == offset + |env.data|
      && Open(v, key, id, next, if next >= committed + COMMIT_BYTES || next == key.size then next else committed)
  {
    var env := Frame(key, source, id, offset);
    FrameAcceptable(cfg, w, key, source, id, offset, committed);
    ChunkGood(cfg, w, key.peer, env);
    WrittenSoFar(cfg, w, key, id, offset, committed);
    hide Good, Acceptable, Sends;
    AcceptedChunk(w, key, env, offset, committed);
    hide ChunkOp, DistinctNames, Open;
  }

  lemma WrittenSoFar(cfg: Config, w: World, key: Key, id: nat, offset: nat, committed: nat)
    requires Good(cfg, w) && Open(w, key, id, offset, committed)
    ensures offset <= |w.folders[key].part.data|
  {
    PairOf(cfg, w, id);
  }

  lemma ChunkGood(cfg: Config, w: World, peer: string, env: Envelope)
    requires Good(cfg, w) && DistinctNames(cfg) && Honest(cfg, w, Chunk(peer, env))
    ensures Good(cfg, Final(cfg, w, Chunk(peer, env)))
  {
    TraceKept(cfg, w, Chunk(peer, env));
    ChunkSettled(cfg, w, peer, env);
    hide Inv, Settled, ChunkOp, Honest;
    var trace := Op(cfg, w, Chunk(peer, env)).trace;
    assert trace[|trace| - 1] in trace;
  }

  lemma FrameAcceptable(cfg: Config, w: World, key: Key, source: bytes, id: nat, offset: nat, committed: nat)
    requires Inv(cfg, w) && Sends(cfg, key, source) && Open(w, key, id, offset, committed) && offset < key.size
    ensures var env := Frame(key, source, id, offset);
      && Acceptable(w.transfers[id], env) && Honest(cfg, w, Chunk(key.peer, env))
      && |env.data| == Min(CHUNK_BYTES, key.size - offset)
  {
    PairOf(cfg, w, id);
    hide Inv;
    assert offset % CHUNK_BYTES == 0;
  }

  lemma FinishEffect(cfg: Config, w: World, key: Key, source: bytes, id: nat, committed: nat)
    requires Good(cfg, w) && DistinctNames(cfg) && InjectiveHash(cfg) && Sends(cfg, key, source)
    requires Open(w, key, id, committed, committed) && committed == key.size
    ensures var reply := FinishOp(cfg, w, key.peer, id).reply; var v := Final(cfg, w, Finish(key.peer, id));
      reply.Receipt? ==> (reply.sha == key.sha && reply.size == key.size
                          && reply.path in v.published && v.published[reply.path] == source)
  {
    if FinishOp(cfg, w, key.peer, id).reply.Receipt? {
      ReceiptFacts(cfg, w, key.peer, id);
    }
  }

  // ---- failing calls ----

  /** The receiver after one of the sender's exchanges that reaches it. */
  function Perform(cfg: Config, w: World, ev: Event, course: Course): World {
    var trace := Op(cfg, w, ev).trace;
    match course
    case Fails(at, written) => Faulted(w, trace[Min(at, |trace| - 1)], ev, written)
    case _ => Final(cfg, w, ev)
  }

  /** Whatever becomes of an exchange, nothing durable is lost by it. */
  lemma PerformKept(cfg: Config, w: World, ev: Event, course: Course, key: Key)
    requires Good(cfg, w) && DistinctNames(cfg) && Honest(cfg, w, ev) && !CancelOf(ev, key)
    ensures Good(cfg, Perform(cfg, w, ev, course)) && Durable(w, key) <= Durable(Perform(cfg, w, ev, course), key)
  {
    var trace := Op(cfg, w, ev).trace;
    var step := if course.Fails? then Fault(ev, Min(course.at, |trace| - 1), course.written) else Complete(ev);
    hide Op, Good, Honest, CancelOf, Faulted;
    assert HonestStep(cfg, w, step) && Next(cfg, w, step, Perform(cfg, w, ev, course));
    NextKept(cfg, w, step, Perform(cfg, w, ev, course));
    StepAdvances(cfg, w, step, Perform(cfg, w, ev, course), key);
  }

  lemma PerformClear(cfg: Config, w: World, ev: Event, course: Course, key: Key)
    requires Good(cfg, w) && DistinctNames(cfg) && Honest(cfg, w, ev) && Clear(cfg, w.published, key)
    ensures Clear(cfg, Perform(cfg, w, ev, course).published, key)
  {
    var trace := Op(cfg, w, ev).trace;
    var step := if course.Fails? then Fault(ev, Min(course.at, |trace| - 1), course.written) else Complete(ev);
    hide Op, Good, Honest, Faulted, Clear;
    assert Next(cfg, w, step, Perform(cfg, w, ev, course));
    StepClear(cfg, w, step, Perform(cfg, w, ev, course), key);
  }

  /** A chunk of the transfer failed: the receiver refuses everything further for it. */
  predicate Broken(w: World, key: Key, id: nat) {
    id in w.transfers && w.transfers[id].state.key == key && w.transfers[id].failed
  }

  lemma FailingChunk(cfg: Config, w: World, key: Key, id: nat, env: Envelope, course: Course)
    requires Inv(cfg, w) && env.id == id && id in w.transfers && w.transfers[id].state.key == key && course.Fails?
    ensures Broken(Perform(cfg, w, Chunk(key.peer, env), course), key, id)
  {
    PairOf(cfg, w, id);
    hide Inv, PairOk;
    var trace := ChunkOp(w, key.peer, env).trace;
    var v := trace[Min(course.at, |trace| - 1)];
    ChunkPasses(w, key, env, v);
    hide ChunkOp, WriteAt, Acceptable;
    assert Perform(cfg, w, Chunk(key.peer, env), course) == Faulted(w, v, Chunk(key.peer, env), course.written);
  }

  /** The transfer stays open through a chunk, and a broken one stays broken. */
  lemma ChunkPasses(w: World, key: Key, env: Envelope, v: World)
    requires env.id in w.transfers && w.transfers[env.id].state.key == key && key in w.folders
    requires v in ChunkOp(w, key.peer, env).trace
    ensures env.id in v.transfers && v.transfers[env.id].state.key == key && key in v.folders
    ensures !Owned(w, key.peer, env.id) ==> v == w
  {
    hide WriteAt, Acceptable, CommitDue;
  }

  lemma BrokenRefuses(cfg: Config, w: World, key: Key, id: nat, env: Envelope, course: Course)
    requires Broken(w, key, id) && env.id == id
    ensures Perform(cfg, w, Chunk(key.peer, env), course) == w
  {
  }

  // ---- the push ----

  predicate GoodAck(ack: Ack, size: nat) {
    && ack.committed == ack.received == ack.offset
    && 0 < ack.committed <= size && Aligned(ack.committed, size)
  }

  /** Every acknowledgement is exact, and each one commits more than the one before. */
  predicate GoodAcks(acks: seq<Ack>, size: nat, committed: nat) {
    && (forall i :: 0 <= i < |acks| ==> GoodAck(acks[i], size) && acks[i].committed <= committed)
    && (forall i, j :: 0 <= i < j < |acks| ==> acks[i].committed < acks[j].committed)
    && COMMIT_BYTES * |acks| < committed + COMMIT_BYTES
  }

  /** Some exchange of this stretch of the schedule meets a failing call. */
  predicate Failing(schedule: seq<Turn>, from: nat, to: nat)
    requires to <= |schedule|
  {
    exists i :: from <= i < to && schedule[i].course.Fails?
  }

  /** What is durable at the receiver once `sent` chunks of a window are there. */
  function Reached(size: nat, start: nat, sent: nat, offset: nat): nat {
    if sent == WINDOW_CHUNKS || offset == size then offset else start
  }

  /** Where the receiver stands between barriers: durable up to the last one, or to the end of the
    * window, and open at the sender's offset, unless one of the chunks failed. */
  predicate InWindow(w: World, key: Key, id: nat, start: nat, sent: nat, offset: nat) {
    && start <= offset <= key.size
    && (offset == start + sent * CHUNK_BYTES || offset == key.size)
    && start <= Durable(w, key)
    && (Open(w, key, id, offset, Reached(key.size, start, sent, offset)) || Broken(w, key, id))
  }

  lemma NextInWindow(size: nat, start: nat, sent: nat, offset: nat)
    requires sent < WINDOW_CHUNKS && start <= offset < size && offset == start + sent * CHUNK_BYTES
    ensures var next := Min(offset + CHUNK_BYTES, size);
      && offset < next && (next == start + (sent + 1) * CHUNK_BYTES || next == size)
      && Reached(size, start, sent, offset) == start
      && Reached(size, start, sent + 1, next) == (if next >= start + COMMIT_BYTES || next == size then next else start)
  {
  }

  lemma WindowEnds(size: nat, start: nat, sent: nat, offset: nat)
    requires start < offset <= size && Aligned(start, size) && (sent == WINDOW_CHUNKS || offset == size)
    requires offset == start + sent * CHUNK_BYTES || offset == size
    ensures Aligned(offset, size) && Reached(size, start, sent, offset) == offset
  {
  }

  lemma FrameLength(cfg: Config, key: Key, source: bytes, id: nat, offset: nat)
    requires Sends(cfg, key, source) && offset < key.size
    ensures offset <= |source| && offset + |Frame(key, source, id, offset).data| == Min(offset + CHUNK_BYTES, key.size)
  {
  }

  // ---- schedules that let the push through ----

  /** From here on, every exchange arrives. */
  predicate Arriving(schedule: seq<Turn>, from: nat) {
    forall i :: from <= i < |schedule| ==> schedule[i].course.Arrives?
  }

  /** At `turn` there is still room for `rest` exchanges that arrive. */
  predicate Room(schedule: seq<Turn>, from: nat, turn: nat, rest: nat) {
    Arriving(schedule, from) && |schedule| >= Max(turn, from) + rest
  }

  /** What others do before an exchange. */
  method Before(cfg: Config, w0: World, key: Key, id: nat, turn: Turn) returns (w: World)
    requires Good(cfg, w0) && DistinctNames(cfg) && id in w0.transfers && w0.transfers[id].state.key == key
    ensures Good(cfg, w) && Untouched(w0, w, key, id)
    ensures Clear(cfg, w0.published, key) ==> Clear(cfg, w.published, key)
  {
    OthersKept(cfg, w0, turn.others, key, id);
    if Clear(cfg, w0.published, key) { OthersClear(cfg, w0, turn.others, key, id); }
    w := Others(cfg, w0, turn.others, key, id);
  }

  /** One chunk: the link drops before it, or it arrives, or it fails. */
  method SendChunk(cfg: Config, w0: World, key: Key, source: bytes, id: nat, ghost start: nat, ghost sent: nat,
                   offset: nat, turn: Turn)
    returns (w: World)
    requires Good(cfg, w0) && DistinctNames(cfg) && Sends(cfg, key, source)
    requires sent < WINDOW_CHUNKS && offset < key.size && InWindow(w0, key, id, start, sent, offset)
    ensures Good(cfg, w) && start <= Durable(w, key)
    ensures !turn.course.Drops? ==> InWindow(w, key, id, start, sent + 1, Min(offset + CHUNK_BYTES, key.size))
    ensures !turn.course.Drops? && Broken(w, key, id) ==> Broken(w0, key, id) || turn.course.Fails?
    ensures Clear(cfg, w0.published, key) ==> Clear(cfg, w.published, key)
  {
    w := Before(cfg, w0, key, id, turn);
    assert InWindow(w, key, id, start, sent, offset);
    hide Good, Clear;
    if turn.course.Drops? {
      MeanwhileKept(cfg, w, turn.course.meanwhile, key);
      if Clear(cfg, w.published, key) { MeanwhileClear(cfg, w, turn.course.meanwhile, key); }
      AdvancesDurable(w, Meanwhile(cfg, w, turn.course.meanwhile, key), key);
      w := Meanwhile(cfg, w, turn.course.meanwhile, key);
      return;
    }
    NextInWindow(key.size, start, sent, offset);
    var env := Frame(key, source, id, offset);
    FrameSent(cfg, w, key, source, id, start, sent, offset, turn.course);
    w := Perform(cfg, w, Chunk(key.peer, env), turn.course);
  }

  lemma AdvancesDurable(w: World, v: World, key: Key)
    requires Advances(w, v, key)
    ensures Durable(w, key) <= Durable(v, key)
  {
  }

  lemma FrameSent(cfg: Config, w: World, key: Key, source: bytes, id: nat, start: nat, sent: nat, offset: nat,
                  course: Course)
    requires Good(cfg, w) && DistinctNames(cfg) && Sends(cfg, key, source)
    requires sent < WINDOW_CHUNKS && offset < key.size && InWindow(w, key, id, start, sent, offset)
    ensures var v := Perform(cfg, w, Chunk(key.peer, Frame(key, source, id, offset)), course);
      && Good(cfg, v) && InWindow(v, key, id, start, sent + 1, Min(offset + CHUNK_BYTES, key.size))
      && (Broken(v, key, id) ==> Broken(w, key, id) || course.Fails?)
      && (Clear(cfg, w.published, key) ==> Clear(cfg, v.published, key))
  {
    hide Clear;
    var env := Frame(key, source, id, offset);
    NextInWindow(key.size, start, sent, offset);
    if Broken(w, key, id) {
      BrokenRefuses(cfg, w, key, id, env, course);
    } else {
      FrameAcceptable(cfg, w, key, source, id, offset, start);
      if Clear(cfg, w.published, key) { PerformClear(cfg, w, Chunk(key.peer, env), course, key); }
      PerformKept(cfg, w, Chunk(key.peer, env), course, key);
      if course.Fails? {
        FailingChunk(cfg, w, key, id, env, course);
      } else {
        ChunkEffect(cfg, w, key, source, id, offset, start);
      }
    }
    hide Inv, Settled, Perform, Frame;
  }

  /** Four chunks, or fewer at the end of the file. No chunk is answered, so the sender learns of a
    * failure only at the barrier. */
  method SendWindow(cfg: Config, w0: World, key: Key, source: bytes, id: nat, start: nat, schedule: seq<Turn>,
                    turn0: nat, ghost from: nat)
    returns (w: World, turn: nat, offset: nat, link: Link)
    requires Good(cfg, w0) && DistinctNames(cfg) && Sends(cfg, key, source) && turn0 <= |schedule|
    requires Open(w0, key, id, start, start) && start < key.size && Aligned(start, key.size)
    ensures Good(cfg, w) && turn0 <= turn <= |schedule| && start <= Durable(w, key)
    ensures Clear(cfg, w0.published, key) ==> Clear(cfg, w.published, key)
    ensures link == Up || link == Dropped || link == Silent
    ensures link == Dropped ==> turn0 < turn
    ensures link == Up ==> start < offset <= key.size && Aligned(offset, key.size)
    ensures link == Up ==>
      Open(w, key, id, offset, offset) || (Broken(w, key, id) && Failing(schedule, turn0, turn))
    ensures Room(schedule, from, turn0, TurnsLeft(key.size, start, 0)) ==>
      && link != Silent && (link == Dropped ==> turn <= from)
      && (link == Up ==> Room(schedule, from, turn, 1 + TurnsLeft(key.size, offset, 0)))
  {
    hide Good, Sends, Open, Clear, Arriving, TurnsLeft;
    w, turn, offset := w0, turn0, start;
    var sent := 0;
    OpensWindow(w, key, id, start);
    while sent < WINDOW_CHUNKS && offset < key.size
      invariant 0 <= sent <= WINDOW_CHUNKS && turn0 <= turn <= |schedule|
      invariant Good(cfg, w) && InWindow(w, key, id, start, sent, offset)
      invariant Clear(cfg, w0.published, key) ==> Clear(cfg, w.published, key)
      invariant if sent > 0 then offset > start else offset == start
      invariant Broken(w, key, id) ==> Failing(schedule, turn0, turn)
      invariant Room(schedule, from, turn0, TurnsLeft(key.size, start, 0)) ==>
        Room(schedule, from, turn, TurnsLeft(key.size, offset, sent))
    {
      ChunkTurn(key.size, offset, sent);
      if turn == |schedule| { link := Silent; return; }
      NextInWindow(key.size, start, sent, offset);
      DropsBefore(schedule, from, turn);
      w := SendChunk(cfg, w, key, source, id, start, sent, offset, schedule[turn]);
      turn := turn + 1;
      if schedule[turn - 1].course.Drops? { link := Dropped; return; }
      FrameLength(cfg, key, source, id, offset);
      offset, sent := offset + |Frame(key, source, id, offset).data|, sent + 1;
    }
    BarrierTurn(key.size, offset, sent);
    WindowEnds(key.size, start, sent, offset);
    link := Up;
  }

  lemma DropsBefore(schedule: seq<Turn>, from: nat, turn: nat)
    requires turn < |schedule|
    ensures Arriving(schedule, from) && turn >= from ==> schedule[turn].course.Arrives?
  {
  }

  lemma OpensWindow(w: World, key: Key, id: nat, start: nat)
    requires Open(w, key, id, start, start) && start <= key.size
    ensures InWindow(w, key, id, start, 0, start) && !Broken(w, key, id)
  {
  }

  /** How a stretch of the push ended: still connected, dropped, schedule over, or an error. */
  datatype Link = Up | Dropped | Silent | Rejecting | Distrusted

  lemma MoreAcks(acks: seq<Ack>, size: nat, committed: nat, ack: Ack)
    requires GoodAcks(acks, size, committed) && GoodAck(ack, size) && committed < ack.committed
    requires Aligned(committed, size) && committed <= size
    ensures GoodAcks(acks + [ack], size, ack.committed)
  {
    if ack.committed < committed + COMMIT_BYTES {
      // Only the last, short window commits less than a full stretch.
      assert ack.committed == size && committed % COMMIT_BYTES == 0;
      assert COMMIT_BYTES * |acks| <= committed;
    }
  }

  /** The barrier: everything sent before it has been handled when it is answered, and a transfer
    * one of whose chunks failed is refused. */
  method Barrier(cfg: Config, w0: World, key: Key, id: nat, offset: nat, turn: Turn)
    returns (w: World, ack: Option<Ack>)
    requires Good(cfg, w0) && DistinctNames(cfg)
    requires id in w0.transfers && w0.transfers[id].state.key == key
    ensures Good(cfg, w) && Durable(w0, key) <= Durable(w, key)
    ensures !turn.course.Drops? ==> Untouched(w0, w, key, id)
    ensures ack.Some? <==> turn.course.Arrives? && !w0.transfers[id].failed
    ensures ack.Some? ==>
      ack.value == Ack(offset, w0.transfers[id].received, w0.transfers[id].state.committed)
    ensures Clear(cfg, w0.published, key) ==> Clear(cfg, w.published, key)
  {
    w := Before(cfg, w0, key, id, turn);
    hide Good, Clear;
    if turn.course.Drops? {
      MeanwhileKept(cfg, w, turn.course.meanwhile, key);
      if Clear(cfg, w.published, key) { MeanwhileClear(cfg, w, turn.course.meanwhile, key); }
      AdvancesDurable(w, Meanwhile(cfg, w, turn.course.meanwhile, key), key);
      return Meanwhile(cfg, w, turn.course.meanwhile, key), None;
    }
    if turn.course.Fails? || !Owned(w, key.peer, id) { return w, None; }
    ack := Some(Ack(offset, w.transfers[id].received, w.transfers[id].state.committed));
  }

  /** Windows and barriers from the committed offset to the end of the file. */
  method SendFrom(cfg: Config, w0: World, key: Key, source: bytes, id: nat, start: nat, schedule: seq<Turn>,
                  turn0: nat, acks0: seq<Ack>, ghost from: nat)
    returns (w: World, turn: nat, committed: nat, acks: seq<Ack>, link: Link)
    requires Good(cfg, w0) && DistinctNames(cfg) && Sends(cfg, key, source) && turn0 <= |schedule|
    requires Open(w0, key, id, start, start) && start <= key.size && Aligned(start, key.size)
    requires GoodAcks(acks0, key.size, start)
    ensures Good(cfg, w) && turn0 <= turn <= |schedule|
    ensures Clear(cfg, w0.published, key) ==> Clear(cfg, w.published, key)
    ensures committed <= Durable(w, key) && committed <= key.size && Aligned(committed, key.size)
    ensures GoodAcks(acks, key.size, committed)
    ensures link != Distrusted && (link == Rejecting ==> Failing(schedule, turn0, turn))
    ensures link == Dropped ==> turn0 < turn
    ensures link == Up ==> committed == key.size && Open(w, key, id, committed, committed)
    ensures Room(schedule, from, turn0, TurnsLeft(key.size, start, 0)) ==>
      && link != Silent && (link == Dropped ==> turn <= from)
      && (link == Up ==> Room(schedule, from, turn, 1))
  {
    hide Good, GoodAcks, Clear, TurnsLeft, Arriving;
    w, turn, committed, acks := w0, turn0, start, acks0;
    var offset := start;
    while offset < key.size
      invariant turn0 <= turn <= |schedule| && Good(cfg, w)
      invariant Clear(cfg, w0.published, key) ==> Clear(cfg, w.published, key)
      invariant offset == committed <= key.size && Aligned(committed, key.size)
      invariant Open(w, key, id, offset, committed)
      invariant GoodAcks(acks, key.size, committed)
      invariant Room(schedule, from, turn0, TurnsLeft(key.size, start, 0)) ==>
        Room(schedule, from, turn, TurnsLeft(key.size, offset, 0))
      decreases key.size - offset
    {
      w, turn, offset, link := SendWindow(cfg, w, key, source, id, offset, schedule, turn, from);
      if link != Up { return; }
      if turn == |schedule| { link := Silent; return; }
      var ack;
      DropsBefore(schedule, from, turn);
      w, ack := Barrier(cfg, w, key, id, offset, schedule[turn]);
      turn := turn + 1;
      if schedule[turn - 1].course.Drops? { link := Dropped; return; }
      if ack.None? {
        assert schedule[turn - 1].course.Fails? || Failing(schedule, turn0, turn - 1);
        link := Rejecting; return;
      }
      if ack.value.received != offset || ack.value.committed < committed || ack.value.committed > offset
        || !Aligned(ack.value.committed, key.size)
      {
        link := Distrusted; return;
      }
      MoreAcks(acks, key.size, committed, ack.value);
      committed, acks := ack.value.committed, acks + [ack.value];
    }
    FinishTurn(key.size);
    link := Up;
  }

  lemma FinishTurn(size: nat)
    ensures TurnsLeft(size, size, 0) == 1
  {
  }

  /** What a push promises about its result, when nothing fails at the receiver: a refused begin was not
    * to be admitted, and with nothing in the way of the publication no finish is refused. */
  ghost predicate Answered(cfg: Config, key: Key, token: string, w0: World, asked: World, result: Result) {
    && (result.BeginRejected? ==> !Admits(cfg, asked, key.peer, key.sha, key.size, Some(token)))
    && (Clear(cfg, w0.published, key) ==> !result.FinishRejected?)
  }

  /** The link stays up from `from` on, long enough for the whole file, and nothing is in the way. */
  ghost predicate Through(cfg: Config, schedule: seq<Turn>, from: nat, w0: World, key: Key) {
    Room(schedule, from, 0, TurnsFor(key.size)) && Clear(cfg, w0.published, key)
  }

  /** Runs the push over the given schedule; `Waiting` when it ends in a reconnect wait. `asked` is the
    * receiver at the last begin, and `from` where the link becomes good, if it does. */
  method PushResumableBlob(cfg: Config, w0: World, key: Key, token: string, name: string, source: bytes,
                           schedule: seq<Turn>, ghost from: nat)
    returns (w: World, result: Result, acks: seq<Ack>, committed: nat, ghost asked: World)
    requires Good(cfg, w0) && DistinctNames(cfg) && InjectiveHash(cfg) && Sends(cfg, key, source)
    ensures Good(cfg, w)
    // The sender's checks on offsets and receipts never fire, and a barrier is refused only after a
    // failing call at the receiver.
    ensures !result.BadCommittedOffset? && !result.BadAcknowledgement? && !result.BadReceipt?
    ensures result.CheckpointRejected? ==> Failing(schedule, 0, |schedule|)
    ensures result.Delivered? ==> result.path in w.published && w.published[result.path] == source
    ensures GoodAcks(acks, key.size, committed) && committed <= key.size && committed <= Durable(w, key)
    ensures result.Delivered? || result.FinishRejected? ==> committed == key.size
    ensures !Failing(schedule, 0, |schedule|) ==> Answered(cfg, key, token, w0, asked, result)
    // Once the link stays up for long enough, the push does not wait any more. So with no failing call
    // and nothing in the way, it is delivered, however often the link dropped before, unless the
    // receiver has no room for it.
    ensures Room(schedule, from, 0, TurnsFor(key.size)) ==> !result.Waiting?
    ensures !Failing(schedule, 0, |schedule|) && Through(cfg, schedule, from, w0, key) ==>
      result.Delivered? || (result.BeginRejected? && !Admits(cfg, asked, key.peer, key.sha, key.size, Some(token)))
    ensures (from == 0 && Through(cfg, schedule, 0, w0, key)
             && Admits(cfg, w0, key.peer, key.sha, key.size, Some(token))) ==> result.Delivered?
  {
    hide Good, GoodAcks, Sends, InjectiveHash, Open, Clear, Admits, TurnsLeft, Arriving;
    w, acks, committed, asked := w0, [], 0, w0;
    NoAcks(key.size);
    NoneFails(schedule, from);
    var turn := 0;
    while turn < |schedule|
      invariant turn <= |schedule| && Good(cfg, w)
      invariant Clear(cfg, w0.published, key) ==> Clear(cfg, w.published, key)
      invariant committed <= Durable(w, key) && committed <= key.size && Aligned(committed, key.size)
      invariant GoodAcks(acks, key.size, committed)
      invariant Room(schedule, from, 0, TurnsFor(key.size)) ==> turn <= from && (from == 0 ==> w == w0)
      decreases |schedule| - turn
    {
      var now := schedule[turn].course;
      DropsBefore(schedule, from, turn);
      turn := turn + 1;
      if now.Drops? {
        MeanwhileKept(cfg, w, now.meanwhile, key);
        if Clear(cfg, w.published, key) { MeanwhileClear(cfg, w, now.meanwhile, key); }
        AdvancesDurable(w, Meanwhile(cfg, w, now.meanwhile, key), key);
        w := Meanwhile(cfg, w, now.meanwhile, key);
        continue;
      }
      var begun;
      asked := w;
      w, begun := BeginPush(cfg, w, key, token, name, now);
      if !begun.Begun? { result := BeginRejected; return; }
      if begun.committed < committed || begun.committed > key.size || !Aligned(begun.committed, key.size) {
        result := BadCommittedOffset; return;
      }
      MoreDurable(acks, key.size, committed, begun.committed);
      ResumedTurns(key.size, begun.committed);
      var link;
      w, turn, committed, acks, link :=
        SendFrom(cfg, w, key, source, begun.id, begun.committed, schedule, turn, acks, from);
      if link == Rejecting { result := CheckpointRejected; return; }
      if link == Distrusted { result := BadAcknowledgement; return; }
      if link == Dropped { continue; }
      if link == Silent || turn == |schedule| { result := Waiting; return; }
      var done;
      DropsBefore(schedule, from, turn);
      w, result, done := FinishPush(cfg, w, key, source, begun.id, schedule[turn]);
      if done { return; }
      turn := turn + 1;
    }
    result := Waiting;
  }

  lemma NoneFails(schedule: seq<Turn>, from: nat)
    ensures Arriving(schedule, from) && from == 0 ==> !Failing(schedule, 0, |schedule|)
  {
  }

  lemma NoAcks(size: nat)
    ensures GoodAcks([], size, 0) && Aligned(0, size)
  {
  }

  lemma MoreDurable(acks: seq<Ack>, size: nat, committed: nat, more: nat)
    requires GoodAcks(acks, size, committed) && committed <= more
    ensures GoodAcks(acks, size, more)
  {
  }

  /** The first exchange of a connection. */
  method BeginPush(cfg: Config, w0: World, key: Key, token: string, name: string, course: Course)
    returns (w: World, begun: Reply)
    requires Good(cfg, w0) && DistinctNames(cfg) && !course.Drops?
    ensures Good(cfg, w) && Durable(w0, key) <= Durable(w, key)
    ensures Clear(cfg, w0.published, key) ==> Clear(cfg, w.published, key)
    ensures begun.Begun? <==> course.Arrives? && Admits(cfg, w0, key.peer, key.sha, key.size, Some(token))
    ensures begun.Begun? ==>
      && begun.committed == Durable(w0, key) <= key.size && Aligned(begun.committed, key.size)
      && Open(w, key, begun.id, begun.committed, begun.committed)
  {
    hide Clear;
    var ev := Begin(key.peer, key.sha, key.size, Some(token), name);
    PerformKept(cfg, w0, ev, course, key);
    if Clear(cfg, w0.published, key) { PerformClear(cfg, w0, ev, course, key); }
    BeginAnswers(cfg, w0, key.peer, key.sha, key.size, Some(token), name);
    begun := if course.Fails? then Refused else BeginOp(cfg, w0, key.peer, key.sha, key.size, Some(token), name).reply;
    if begun.Begun? {
      BeginEffect(cfg, w0, key, token, name);
    }
    hide Inv, Settled, BeginOp, Op, Admits;
    w := Perform(cfg, w0, ev, course);
  }

  /** The last exchange. Not done when the link drops before the receipt arrives. */
  method FinishPush(cfg: Config, w0: World, key: Key, source: bytes, id: nat, turn: Turn)
    returns (w: World, result: Result, done: bool)
    requires Good(cfg, w0) && DistinctNames(cfg) && InjectiveHash(cfg) && Sends(cfg, key, source)
    requires Open(w0, key, id, key.size, key.size)
    ensures Good(cfg, w) && key.size == Durable(w, key)
    ensures Clear(cfg, w0.published, key) ==> Clear(cfg, w.published, key)
    ensures !done <==> turn.course.Drops?
    ensures done ==> result.Delivered? || result.FinishRejected?
    ensures done && result.Delivered? ==> result.path in w.published && w.published[result.path] == source
    ensures Clear(cfg, w0.published, key) && turn.course.Arrives? ==> result.Delivered?
  {
    hide Clear;
    w := Before(cfg, w0, key, id, turn);
    if turn.course.Drops? {
      MeanwhileKept(cfg, w, turn.course.meanwhile, key);
      if Clear(cfg, w.published, key) { MeanwhileClear(cfg, w, turn.course.meanwhile, key); }
      w := Meanwhile(cfg, w, turn.course.meanwhile, key);
      DurableBounded(cfg, w, key);
      return w, Waiting, false;
    }
    ghost var ev := Finish(key.peer, id);
    if Clear(cfg, w.published, key) {
      FinishDelivers(cfg, w, key.peer, id, source);
      PerformClear(cfg, w, ev, turn.course, key);
    }
    var receipt := if turn.course.Fails? then Refused else FinishOp(cfg, w, key.peer, id).reply;
    FinishEffect(cfg, w, key, source, id, key.size);
    PerformKept(cfg, w, ev, turn.course, key);
    DurableBounded(cfg, Perform(cfg, w, ev, turn.course), key);
    hide Inv, Settled, FinishOp, Op, InjectiveHash;
    w := Perform(cfg, w, Finish(key.peer, id), turn.course);
    if !receipt.Receipt? { return w, FinishRejected, true; }
    if receipt.sha != key.sha || receipt.size != key.size { return w, BadReceipt, true; }
    return w, Delivered(receipt.path), true;
  }

  lemma DurableBounded(cfg: Config, w: World, key: Key)
    requires Good(cfg, w)
    ensures Durable(w, key) <= key.size
  {
    if key in w.folders {
      assert FolderOk(cfg, w.published, key, w.folders[key]);
    }
  }
}
