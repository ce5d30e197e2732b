/** The remote shell service as the object it is. Each method is one stretch of code between two
  * awaits, and takes the state exactly where the specification in PtyAdmission says. */
module PtyService {
  import opened Prelude
  import opened PtyAdmission

  class FederationPtyService {
    const paths: Paths
    var sessionsById: map<string, Session>
    var peerEpochs: map<Peer, nat>
    var spawningCountByPeer: map<Peer, nat>
    var pendingOpens: map<nat, Open>
    var nextOpen: nat
    var removingWorktrees: set<Dir>
    var removals: map<nat, Removal>
    var disposed: bool

    function Now(): State
      reads this
    {
      State(sessionsById, peerEpochs, spawningCountByPeer, pendingOpens, nextOpen, removingWorktrees, removals,
            disposed)
    }

    constructor (paths: Paths)
      ensures this.paths == paths && Now() == INITIAL
    {
      this.paths := paths;
      sessionsById, peerEpochs, spawningCountByPeer := map[], map[], map[];
      pendingOpens, nextOpen, removingWorktrees, removals, disposed := map[], 0, {}, map[], false;
    }

    method SessionCountForPeer(peer: Peer) returns (count: nat)
      ensures count == |Live(Now(), peer)|
    {
      count := 0;
      var rest := sessionsById.Keys;
      ghost var seen: set<string> := {};
      while rest != {}
        invariant seen !! rest && seen + rest == sessionsById.Keys
        invariant count == |LiveAmong(Now(), seen, peer)|
        decreases rest
      {
        var id :| id in rest;
        OneMoreSeen(Now(), seen, id, peer);
        if sessionsById[id].peer == peer {
          count := count + 1;
        }
        rest, seen := rest - {id}, seen + {id};
      }
      assert Live(Now(), peer) == LiveAmong(Now(), sessionsById.Keys, peer);
    }

    /** Whether `assertWorktreeAvailable` lets the directory pass. */
    method WorktreeAvailable(dir: Dir) returns (available: bool)
      ensures available <==> Available(paths, Now(), dir)
    {
      var rest := removingWorktrees;
      while rest != {}
        invariant rest <= removingWorktrees
        invariant forall w :: w in removingWorktrees && w !in rest ==> !paths.inside(dir, w)
        decreases rest
      {
        var w :| w in rest;
        if paths.inside(dir, w) { return false; }
        rest := rest - {w};
      }
      available := true;
    }

    method OpenCalled(peer: Peer, resumes: Option<string>) returns (open: nat)
      modifies this
      ensures Now() == Step(paths, old(Now()), Event.OpenCalled(peer, resumes)) && open == old(nextOpen)
    {
      open := nextOpen;
      pendingOpens := pendingOpens[open := Open(peer, Awaiting, 0, None, resumes, false)];
      nextOpen := nextOpen + 1;
    }

    /** From `await this.ready` to `await resolveThreadCwd`. */
    method Admit(open: nat, allowed: bool) returns (admitted: bool)
      requires open in pendingOpens && pendingOpens[open].phase == Awaiting
      modifies this
      ensures Now() == Step(paths, old(Now()), Event.Admit(open, allowed))
      ensures admitted <==> pendingOpens[open].phase == Resolving
    {
      var o := pendingOpens[open];
      if !allowed || disposed {
        pendingOpens := pendingOpens[open := o.(phase := Settled)];
        return false;
      }
      var count := SessionCountForPeer(o.peer);
      var inFlight := if o.peer in spawningCountByPeer then spawningCountByPeer[o.peer] else 0;
      if count + inFlight >= MAX_SESSIONS_PER_PEER {
        pendingOpens := pendingOpens[open := o.(phase := Settled)];
        return false;
      }
      var epoch := if o.peer in peerEpochs then peerEpochs[o.peer] else 0;
      spawningCountByPeer := spawningCountByPeer[o.peer := inFlight + 1];
      pendingOpens := pendingOpens[open := o.(phase := Resolving, epoch := epoch)];
      admitted := true;
    }

    /** The `finally` around a spawn. */
    method Land(peer: Peer)
      modifies this`spawningCountByPeer
      ensures Now() == Landed(old(Now()), peer)
    {
      var count: int := if peer in spawningCountByPeer then spawningCountByPeer[peer] else 1;
      var remaining := count - 1;
      if remaining > 0 {
        spawningCountByPeer := spawningCountByPeer[peer := remaining];
      } else {
        spawningCountByPeer := spawningCountByPeer - {peer};
      }
    }

    /** From the resolved directory to `await spawnPty`: the guard and the spawn are one stretch. */
    method CwdResolved(open: nat, found: Option<Dir>, allowed: bool) returns (spawning: bool)
      requires open in pendingOpens && pendingOpens[open].phase == Resolving
      modifies this
      ensures Now() == Step(paths, old(Now()), Event.CwdResolved(open, found, allowed))
      ensures spawning <==> pendingOpens[open].phase == Spawning
    {
      var cwd := found.GetOr(paths.home);
      pendingOpens := pendingOpens[open := pendingOpens[open].(cwd := Some(cwd))];
      var o := pendingOpens[open];
      var available := WorktreeAvailable(cwd);
      hide Available;
      if !available || !allowed {
        Land(o.peer);
        pendingOpens := pendingOpens[open := o.(phase := Settled)];
        return false;
      }
      pendingOpens := pendingOpens[open := o.(phase := Spawning)];
      spawning := true;
    }

    /** From the spawned shell to the registered session, or to its kill. */
    method Spawned(open: nat, freshId: string, allowed: bool) returns (registered: bool)
      requires open in pendingOpens && pendingOpens[open].phase == Spawning && pendingOpens[open].cwd.Some?
      requires freshId !in sessionsById
      modifies this
      ensures Now() == Step(paths, old(Now()), Event.Spawned(open, freshId, allowed))
      ensures registered <==> pendingOpens[open].phase == Snapshotting
    {
      var o := pendingOpens[open];
      Land(o.peer);
      var epoch := if o.peer in peerEpochs then peerEpochs[o.peer] else 0;
      if disposed || !allowed || epoch != o.epoch {
        pendingOpens := pendingOpens[open := o.(phase := Settled)];
        return false;
      }
      if o.resumes.Some? && o.resumes.value in sessionsById {
        pendingOpens := pendingOpens[open := o.(phase := Settled)];
        return false;
      }
      var id := if o.resumes.Some? then o.resumes.value else freshId;
      sessionsById := sessionsById[id := Session(o.peer, o.cwd.value, open)];
      pendingOpens := pendingOpens[open := o.(phase := Snapshotting)];
      registered := true;
    }

    method NotifyPeerDisconnected(peer: Peer)
      modifies this
      ensures Now() == Step(paths, old(Now()), PeerDisconnected(peer))
    {
      peerEpochs := peerEpochs[peer := (if peer in peerEpochs then peerEpochs[peer] else 0) + 1];
      // Which opens this catches in flight is recorded for the claims only.
      pendingOpens := map o | o in pendingOpens ::
        if pendingOpens[o].peer == peer && InFlight(pendingOpens[o])
        then pendingOpens[o].(left := true) else pendingOpens[o];
    }

    /** `withWorktreeClosed` up to its first await. Refused inside a worktree already going. */
    method RemovalCalled(removal: nat, worktree: Dir) returns (accepted: bool)
      requires removal !in removals
      modifies this
      ensures Now() == Step(paths, old(Now()), Event.RemovalCalled(removal, worktree))
      ensures accepted <==> removal in removals
    {
      accepted := WorktreeAvailable(worktree);
      if !accepted { return; }
      removingWorktrees := removingWorktrees + {worktree};
      var waits: set<nat> := {};
      var rest := pendingOpens.Keys;
      while rest != {}
        invariant rest <= pendingOpens.Keys
        invariant waits == set o | o in pendingOpens && o !in rest && pendingOpens[o].cwd.Some?
          && paths.inside(pendingOpens[o].cwd.value, worktree)
        decreases rest
      {
        var o :| o in rest;
        rest := rest - {o};
        if pendingOpens[o].cwd.Some? && paths.inside(pendingOpens[o].cwd.value, worktree) {
          waits := waits + {o};
        }
      }
      assert waits == OpensIn(paths, old(Now()), worktree);
      removals := removals[removal := Removal(worktree, Waiting(waits))];
    }

    /** After the awaited opens: delete every session inside, in one stretch. A session whose
      * `assertCurrent` throws is spared, and then the removal fails. */
    method OpensSettled(removal: nat, spared: set<string>) returns (closing: bool)
      requires removal in removals && removals[removal].stage.Waiting?
        && AllSettled(Now(), removals[removal].stage.opens)
      modifies this
      ensures Now() == Step(paths, old(Now()), Event.OpensSettled(removal, spared))
      ensures closing <==> removal in removals
    {
      var worktree := removals[removal].worktree;
      closing := DeleteInside(worktree, spared);
      if closing {
        removals := removals[removal := Removal(worktree, Closing)];
      } else {
        EndRemoval(removal);
      }
    }

    /** Deletes the sessions inside the worktree, one by one, except the spared ones. */
    method DeleteInside(worktree: Dir, spared: set<string>) returns (clear: bool)
      modifies this`sessionsById
      ensures sessionsById == old(sessionsById) - (InWorktree(paths, old(Now()), worktree) - spared)
      ensures clear <==> InWorktree(paths, old(Now()), worktree) * spared == {}
    {
      clear := true;
      ghost var found, was := InWorktree(paths, Now(), worktree), sessionsById;
      var rest := sessionsById.Keys;
      while rest != {}
        invariant rest <= sessionsById.Keys
        invariant sessionsById == was - (found - spared - rest)
        invariant clear <==> found * spared <= rest
        decreases rest
      {
        var id :| id in rest;
        rest := rest - {id};
        if paths.inside(sessionsById[id].cwd, worktree) {
          if id in spared { clear := false; } else { sessionsById := sessionsById - {id}; }
        }
      }
    }

    /** The `finally` of `withWorktreeClosed`. */
    method EndRemoval(removal: nat)
      requires removal in removals
      modifies this
      ensures Now() == PtyAdmission.EndRemoval(old(Now()), removal)
    {
      removingWorktrees := removingWorktrees - {removals[removal].worktree};
      removals := removals - {removal};
    }

    method SessionEnded(id: string)
      modifies this
      ensures Now() == Step(paths, old(Now()), Event.SessionEnded(id))
    {
      sessionsById := sessionsById - {id};
    }
  }

  /** The live sessions of a peer among those looked at. */
  ghost function LiveAmong(s: State, seen: set<string>, peer: Peer): set<string> {
    set id | id in seen && id in s.sessions && s.sessions[id].peer == peer
  }

  lemma OneMoreSeen(s: State, seen: set<string>, id: string, peer: Peer)
    requires id in s.sessions && id !in seen
    ensures |LiveAmong(s, seen + {id}, peer)| == |LiveAmong(s, seen, peer)|
      + (if s.sessions[id].peer == peer then 1 else 0)
  {
    assert LiveAmong(s, seen + {id}, peer)
        == LiveAmong(s, seen, peer) + (if s.sessions[id].peer == peer then {id} else {});
  }
}
