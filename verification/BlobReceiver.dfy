/** The receiver as the object it is: a map of open transfers over a disk, updated in place.
  * Each method passes through exactly the worlds of its specification in ResumableBlob. */
module BlobReceiver {
  import opened Prelude
  import opened ResumableBlob
  import opened BlobSafety

  class FederationResumableBlobReceiver {
    const cfg: Config
    var transfers: map<nat, Transfer>
    var folders: map<Key, Folder>
    var published: map<Path, bytes>
    var nextId: nat

    /** The worlds the latest operation went through, from the one it found on. */
    ghost var visited: seq<World>

    function Now(): World
      reads this
    {
      World(transfers, folders, published, nextId)
    }

    constructor (cfg: Config, folders: map<Key, Folder>, published: map<Path, bytes>, nextId: nat)
      ensures this.cfg == cfg
      ensures Now() == World(map[], folders, published, nextId)
    {
      this.cfg := cfg;
      transfers := map[];
      this.folders := folders;
      this.published := published;
      this.nextId := nextId;
      visited := [];
    }

    ghost predicate Followed(o: Outcome, reply: Reply)
      reads this
    {
      visited == o.trace && |visited| > 0 && Now() == visited[|visited| - 1] && reply == o.reply
    }

    method Begin(peer: string, sha: string, size: int, token: Option<string>, name: string) returns (reply: Reply)
      modifies this
      ensures Followed(BeginOp(cfg, old(Now()), peer, sha, size, token, name), reply)
    {
      hide OpenTrace, InUse, CloseKey;
      visited := [Now()];
      var admissible := Admissible(cfg, Now(), peer, sha, size, token);
      if !admissible { return Refused; }
      var key := Key(peer, sha, size);
      if key !in folders {
        folders := folders[key := Folder(None, EMPTY_FILE)];
      }
      visited := visited + [Now()];
      var stored := StoredState(folders[key], key, token, name);
      if !ValidSidecar(stored, key) || (stored.token != token && stored.result.None?) { return Refused; }
      var state := stored.(token := token);
      CloseOthers(key);
      visited := visited + [Now()];
      if |folders[key].part.data| < state.committed { return Refused; }
      reply := Begun(nextId, state.committed);
      Open(state);
    }

    /** Drop the tail beyond the committed offset, persist the sidecar, open the transfer. */
    method Open(state: Sidecar)
      requires state.key in folders && state.committed <= |folders[state.key].part.data|
      modifies this
      ensures visited == old(visited) + OpenTrace(old(Now()), state) && Now() == OpenTrace(old(Now()), state)[2]
    {
      var key := state.key;
      ghost var trace := OpenTrace(Now(), state);
      folders := folders[key := folders[key].(part := Truncate(folders[key].part, state.committed))];
      visited := visited + [Now()];
      assert Now() == trace[0];
      folders := folders[key := folders[key].(sidecar := Some(state))];
      visited := visited + [Now()];
      assert Now() == trace[1];
      transfers := transfers[nextId := Transfer(state, state.committed, false)];
      nextId := nextId + 1;
      visited := visited + [Now()];
    }

    /** Closes every open transfer of the key, one after the other. */
    method CloseOthers(key: Key)
      modifies this`transfers
      ensures Now() == CloseKey(old(Now()), key)
    {
      var pending := transfers.Keys;
      while pending != {}
        invariant transfers.Keys <= old(transfers).Keys && pending <= old(transfers).Keys
        invariant forall id :: id in transfers ==> transfers[id] == old(transfers)[id]
        invariant forall id :: id in old(transfers) && id !in pending ==>
          (id in transfers <==> old(transfers)[id].state.key != key)
        invariant forall id :: id in pending ==> id in transfers
        decreases pending
      {
        var id :| id in pending;
        pending := pending - {id};
        if transfers[id].state.key == key {
          transfers := transfers - {id};
        }
      }
      assert transfers == CloseKey(old(Now()), key).transfers;
    }

    method Chunk(peer: string, env: Envelope) returns (reply: Reply)
      modifies this
      ensures Followed(ChunkOp(old(Now()), peer, env), reply)
    {
      visited := [Now()];
      if !Owned(Now(), peer, env.id) || transfers[env.id].state.key !in folders { return Refused; }
      var t := transfers[env.id];
      var f := folders[t.state.key];
      if !Acceptable(t, env) || |f.part.data| < t.received {
        transfers := transfers[env.id := t.(failed := true)];
        visited := visited + [Now()];
        assert visited[1] == WithPair(visited[0], env.id, t.(failed := true), f);
        return Refused;
      }
      AppendBytes(t.state.key, t.received, env.data);
      transfers := transfers[env.id := t.(received := t.received + |env.data|)];
      visited := visited + [Now()];
      if CommitDue(transfers[env.id]) {
        Commit(env.id);
      }
      reply := Done;
    }

    /** The write loop: each call may write any positive number of the remaining bytes. */
    method AppendBytes(key: Key, offset: nat, data: bytes)
      requires key in folders && offset <= |folders[key].part.data| && data != []
      modifies this`folders
      ensures Now() == WithFolder(old(Now()), key,
        old(folders)[key].(part := WriteAt(old(folders)[key].part, offset, data)))
    {
      var f := folders[key];
      var written := 0;
      while written < |data|
        invariant 0 <= written <= |data|
        invariant written == 0 ==> folders == old(folders)
        invariant written > 0 ==> folders == old(folders)[key := f.(part := WriteAt(f.part, offset, data[..written]))]
      {
        var n: nat :| 1 <= n <= |data| - written;
        WriteOn(f.part, offset, data[..written], data[written..written + n]);
        assert data[..written] + data[written..written + n] == data[..written + n];
        folders := folders[key := f.(part := WriteAt(folders[key].part, offset + written, data[written..written + n]))];
        written := written + n;
      }
      assert data[..written] == data;
    }

    /** Sync the file, then advance the offset, then persist it. */
    method Commit(id: nat)
      requires id in transfers && transfers[id].state.key in folders
      modifies this
      ensures visited == old(visited) + CommitTrace(old(Now()), id) && Now() == CommitTrace(old(Now()), id)[2]
      ensures id in transfers && transfers[id].state.key in folders
    {
      var t := transfers[id];
      var key := t.state.key;
      ghost var trace := CommitTrace(Now(), id);
      folders := folders[key := folders[key].(part := Sync(folders[key].part))];
      visited := visited + [Now()];
      assert Now() == trace[0] by { assert transfers[id := t] == transfers; }
      var state := t.state.(committed := t.received);
      transfers := transfers[id := t.(state := state)];
      visited := visited + [Now()];
      assert Now() == trace[1];
      folders := folders[key := folders[key].(sidecar := Some(state))];
      visited := visited + [Now()];
      assert Now() == trace[2];
    }

    /** What a checkpoint reports: bytes received and bytes that survive anything. */
    method Checkpoint(peer: string, id: nat) returns (ack: Option<(nat, nat)>)
      ensures ack.Some? <==> Owned(Now(), peer, id)
      ensures ack.Some? ==> ack.value == (transfers[id].received, transfers[id].state.committed)
    {
      if id !in transfers || transfers[id].state.key.peer != peer || transfers[id].failed { return None; }
      ack := Some((transfers[id].received, transfers[id].state.committed));
    }

    method Finish(peer: string, id: nat) returns (reply: Reply)
      modifies this
      ensures Followed(FinishOp(cfg, old(Now()), peer, id), reply)
    {
      hide CompleteTrace, Completes;
      visited := [Now()];
      if !Owned(Now(), peer, id) || transfers[id].state.key !in folders { return Refused; }
      var t := transfers[id];
      if t.state.result.Some? && t.state.result.value in published {
        transfers := transfers - {id};
        visited := visited + [Now()];
        return Receipt(t.state.result.value, t.state.key.size, t.state.key.sha);
      }
      transfers := transfers[id := t.(state := t.state.(result := None))];
      assert Now() == ForgetResult(old(Now()), id);
      var completed := CompleteTransfer(id);
      reply := if completed then Receipt(Target(cfg, t), t.state.key.size, t.state.key.sha) else Refused;
    }

    /** Commit, hash and publish a transfer without a result. */
    method CompleteTransfer(id: nat) returns (completed: bool)
      requires id in transfers && transfers[id].state.key in folders
      modifies this
      ensures visited == old(visited) + CompleteTrace(cfg, old(Now()), id) && Now() == visited[|visited| - 1]
      ensures completed <==> Completes(cfg, old(Now()), id)
    {
      hide PublishTrace, CommitTrace, Publishable;
      visited := visited + [Now()];
      if transfers[id].received != transfers[id].state.key.size { return false; }
      Commit(id);
      if !Publishable(cfg, Now(), id) { return false; }
      Publish(id);
      completed := true;
    }

    /** Link the file under its deterministic name unless it is there already, then record it. */
    method Publish(id: nat)
      requires id in transfers && transfers[id].state.key in folders
      modifies this
      ensures visited == old(visited) + PublishTrace(cfg, old(Now()), id)
        && Now() == PublishTrace(cfg, old(Now()), id)[3]
    {
      var t := transfers[id];
      var key := t.state.key;
      var path := Target(cfg, t);
      if path !in published {
        published := published[path := folders[key].part.data];
      }
      visited := visited + [Now()];
      var state := t.state.(result := Some(path));
      transfers := transfers[id := t.(state := state)];
      visited := visited + [Now()];
      assert Now() == PublishTrace(cfg, old(Now()), id)[1];
      folders := folders[key := folders[key].(sidecar := Some(state))];
      visited := visited + [Now()];
      transfers := transfers - {id};
      visited := visited + [Now()];
    }

    method Cancel(peer: string, sha: string, size: int, token: Option<string>, partFirst: bool) returns (reply: Reply)
      modifies this
      ensures Followed(CancelOp(cfg, old(Now()), peer, sha, size, token, partFirst), reply)
    {
      visited := [Now()];
      if !ValidIdentity(cfg, sha, size) { return Refused; }
      var key := Key(peer, sha, size);
      if key in folders && folders[key].sidecar.Some? && folders[key].sidecar.value.token != token { return Done; }
      CloseOthers(key);
      visited := visited + [Now()];
      if key !in folders { return Done; }
      if partFirst {
        folders := folders[key := folders[key].(part := EMPTY_FILE)];
      } else {
        folders := folders[key := folders[key].(sidecar := None)];
      }
      visited := visited + [Now()];
      folders := folders - {key};
      visited := visited + [Now()];
      assert folders == old(folders) - {key};
      reply := Done;
    }

    /** Persist and close the peer's transfers, in the order in which their files turn out to close. */
    method Disconnect(peer: string, order: seq<nat>) returns (reply: Reply)
      modifies this
      ensures Followed(Outcome(DisconnectTrace(old(Now()), peer, order), Done), reply)
      ensures Inv(cfg, old(Now())) && Covers(old(Now()), peer, order) ==> Detached(old(Now()), peer, Now())
    {
      if Inv(cfg, Now()) && Covers(Now(), peer, order) {
        DisconnectCloses(cfg, Now(), peer, order);
      }
      ghost var whole := DisconnectTrace(Now(), peer, order);
      visited := [];
      var i := 0;
      while i < |order|
        invariant 0 <= i <= |order|
        invariant whole == visited + DisconnectTrace(Now(), peer, order[i..])
      {
        assert order[i..][0] == order[i] && order[i..][1..] == order[i + 1..];
        ghost var before, world := visited, Now();
        Suspend(peer, order[i]);
        ghost var rest := DisconnectTrace(Now(), peer, order[i + 1..]);
        assert DisconnectTrace(world, peer, order[i..]) == SuspendTrace(world, peer, order[i]) + rest;
        Regroup(before, SuspendTrace(world, peer, order[i]), rest);
        i := i + 1;
      }
      assert order[i..] == [];
      visited := visited + [Now()];
      reply := Done;
    }

    /** Persist and close one transfer, if it is the peer's. */
    method Suspend(peer: string, id: nat)
      modifies this
      ensures visited == old(visited) + SuspendTrace(old(Now()), peer, id) && Now() == Suspended(old(Now()), peer, id)
    {
      visited := visited + [Now()];
      if id in transfers && transfers[id].state.key.peer == peer && transfers[id].state.key in folders {
        var t := transfers[id];
        folders := folders[t.state.key := folders[t.state.key].(sidecar := Some(t.state))];
        visited := visited + [Now()];
        assert Now() == WithPair(old(Now()), id, t, folders[t.state.key]) by { assert transfers[id := t] == transfers; }
        transfers := transfers - {id};
      }
    }
  }

  lemma Regroup<T>(a: seq<T>, b: seq<T>, c: seq<T>)
    ensures a + (b + c) == a + b + c
  {
  }

  /** Two writes in a row are one write of both stretches. */
  lemma WriteOn(f: File, offset: nat, a: bytes, b: bytes)
    requires offset <= |f.data|
    ensures offset + |a| <= |WriteAt(f, offset, a).data|
    ensures a != [] ==> WriteAt(WriteAt(f, offset, a), offset + |a|, b) == WriteAt(f, offset, a + b)
    ensures a == [] ==> WriteAt(f, offset + |a|, b) == WriteAt(f, offset, a + b)
  {
    assert a == [] ==> a + b == b;
    var d, first := f.data, WriteAt(f, offset, a).data;
    var end := offset + |a| + |b|;
    assert first[..offset + |a|] == d[..offset] + a;
    assert end <= |d| ==> first[end..] == d[end..];
    assert d[..offset] + (a + b) == d[..offset] + a + b;
    var once, twice := WriteAt(f, offset, a + b), WriteAt(WriteAt(f, offset, a), offset + |a|, b);
    assert once.data == twice.data;
  }
}
