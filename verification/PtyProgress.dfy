/** What each stretch of an open and of a removal does when nothing stands in its way, and exactly
  * when something does. */
module PtyProgress {
  import opened Prelude
  import opened PtyAdmission

  // ---- admission ----

  /** An open is admitted exactly when remote shells are allowed, the service is running, and the peer's
    * sessions and spawns in flight are fewer than 16 together. */
  lemma AdmitsExactly(paths: Paths, events: seq<Event>, o: nat, allowed: bool)
    requires Reflexive(paths)
    requires var s := Run(paths, INITIAL, events); o in s.opens && s.opens[o].phase == Awaiting
    ensures var s := Run(paths, INITIAL, events); var v := Step(paths, s, Event.Admit(o, allowed));
      var peer := s.opens[o].peer;
      && o in v.opens
      && (v.opens[o].phase == Resolving <==> allowed && !s.disposed && |Live(s, peer)| + |Flying(s, peer)| < 16)
      && (v.opens[o].phase != Resolving ==> v.opens[o].phase == Settled)
      && v.opens[o].peer == peer && v.sessions == s.sessions && v.removing == s.removing
      && Flying(v, peer) == (if v.opens[o].phase == Resolving then Flying(s, peer) + {o} else Flying(s, peer))
  {
    RunCapped(paths, events);
    var s := Run(paths, INITIAL, events);
    assert CappedFor(s, s.opens[o].peer);
    hide Run, Live, Flying, CappedFor, Step;
    AdmitStep(paths, s, o, allowed);
    var v := Step(paths, s, Event.Admit(o, allowed));
    FlyingAfter(s, o, v.opens[o], v, s.opens[o].peer);
    NotFlying(s, o);
  }

  lemma NotFlying(s: State, o: nat)
    requires o in s.opens && !InFlight(s.opens[o])
    ensures o !in Flying(s, s.opens[o].peer) && Flying(s, s.opens[o].peer) - {o} == Flying(s, s.opens[o].peer)
  {
  }

  lemma AdmitStep(paths: Paths, s: State, o: nat, allowed: bool)
    requires o in s.opens && s.opens[o].phase == Awaiting && CappedFor(s, s.opens[o].peer)
    ensures var v, peer := Step(paths, s, Event.Admit(o, allowed)), s.opens[o].peer;
      && o in v.opens && v.opens == s.opens[o := v.opens[o]] && v.opens[o].peer == peer
      && (v.opens[o].phase == Resolving <==> allowed && !s.disposed && |Live(s, peer)| + |Flying(s, peer)| < 16)
      && (v.opens[o].phase != Resolving ==> v.opens[o].phase == Settled)
      && v.sessions == s.sessions && v.removing == s.removing
  {
    hide Live, Flying;
  }

  // ---- one open ----

  /** The guard and the spawn: an open that resolves inside a worktree being removed, or after remote
    * shells were switched off, ends; any other starts its shell in the directory it resolved to. */
  lemma SpawnsExactly(paths: Paths, s: State, o: nat, found: Option<Dir>, allowed: bool)
    requires o in s.opens && s.opens[o].phase == Resolving
    ensures var v := Step(paths, s, CwdResolved(o, found, allowed));
      var cwd := if found.Some? then found.value else paths.home;
      && o in v.opens && v.opens[o].cwd == Some(cwd)
      && v.opens[o].phase ==
         (if allowed && (forall w :: w in s.removing ==> !paths.inside(cwd, w)) then Spawning else Settled)
      && v.sessions == s.sessions && v.removing == s.removing && v.removals == s.removals && v.epochs == s.epochs
      && (forall other :: other != o ==> (other in v.opens <==> other in s.opens))
      && (forall other :: other != o && other in s.opens ==> v.opens[other] == s.opens[other])
  {
  }

  /** Registration: exactly when the service runs, shells are allowed, the peer has not disconnected
    * since the open was admitted, and no other session has taken a resumed id. */
  lemma RegistersExactly(paths: Paths, s: State, o: nat, freshId: string, allowed: bool)
    requires o in s.opens && s.opens[o].phase == Spawning && s.opens[o].cwd.Some? && freshId !in s.sessions
    ensures var open, v := s.opens[o], Step(paths, s, Event.Spawned(o, freshId, allowed));
      var id := if open.resumes.Some? then open.resumes.value else freshId;
      var epoch := if open.peer in s.epochs then s.epochs[open.peer] else 0;
      && o in v.opens && v.removing == s.removing && v.epochs == s.epochs
      && (if !s.disposed && allowed && epoch == open.epoch && id !in s.sessions
          then v.opens[o].phase == Snapshotting && v.sessions == s.sessions[id := Session(open.peer, open.cwd.value, o)]
          else v.opens[o].phase == Settled && v.sessions == s.sessions)
  {
  }

  /** Whatever fails, the place of an open in flight becomes free. */
  lemma EndsFree(paths: Paths, s: State, ev: Event)
    requires ev.CwdFailed? || ev.SpawnFailed? || ev.Snapshotted?
    requires ev.open in s.opens && s.opens[ev.open].phase ==
      (if ev.CwdFailed? then Resolving else if ev.SpawnFailed? then Spawning else Snapshotting)
    ensures var v := Step(paths, s, ev);
      && ev.open in v.opens && v.opens[ev.open].phase == Settled && v.sessions == s.sessions
      && Flying(v, s.opens[ev.open].peer) == Flying(s, s.opens[ev.open].peer) - {ev.open}
  {
  }

  // ---- a run of one open ----

  /** Events that neither concern the open, nor take its peer away, nor stop the service. */
  predicate Elsewhere(ev: Event, o: nat, peer: Peer) {
    match ev
    case Admit(other, _) => other != o
    case CwdResolved(other, _, _) => other != o
    case CwdFailed(other) => other != o
    case SpawnFailed(other) => other != o
    case Spawned(other, _, _) => other != o
    case Snapshotted(other) => other != o
    case Forget(other) => other != o
    case PeerDisconnected(gone) => gone != peer
    case Dispose => false
    case _ => true
  }

  predicate AllElsewhere(events: seq<Event>, o: nat, peer: Peer) {
    forall ev :: ev in events ==> Elsewhere(ev, o, peer)
  }

  /** What an open in flight needs to stay as it is. */
  predicate Pending(s: State, o: nat, open: Open, epoch: nat) {
    o in s.opens && s.opens[o] == open && Epoch(s, open.peer) == epoch && !s.disposed && o < s.nextOpen
  }

  lemma PendingStays(paths: Paths, s: State, ev: Event, o: nat, open: Open, epoch: nat)
    requires Pending(s, o, open, epoch) && Elsewhere(ev, o, open.peer)
    ensures Pending(Step(paths, s, ev), o, open, epoch)
  {
    hide Live, Available, InWorktree, OpensIn, AllSettled, SpawnCount;
    if Quiet(ev) {
      QuietPending(paths, s, ev, o, open, epoch);
      hide Step;
    } else if ev.OpenCalled? || ev.PeerDisconnected? || ev.Forget? {
      LedgerPending(paths, s, ev, o, open, epoch);
      hide Step;
    } else {
      MovingPending(paths, s, ev, o, open, epoch);
      hide Step;
    }
  }

  lemma QuietPending(paths: Paths, s: State, ev: Event, o: nat, open: Open, epoch: nat)
    requires Pending(s, o, open, epoch) && Elsewhere(ev, o, open.peer) && Quiet(ev)
    ensures Pending(Step(paths, s, ev), o, open, epoch)
  {
    hide Available, InWorktree, OpensIn, AllSettled;
  }

  lemma LedgerPending(paths: Paths, s: State, ev: Event, o: nat, open: Open, epoch: nat)
    requires Pending(s, o, open, epoch) && Elsewhere(ev, o, open.peer)
    requires ev.OpenCalled? || ev.PeerDisconnected? || ev.Forget?
    ensures Pending(Step(paths, s, ev), o, open, epoch)
  {
  }

  lemma MovingPending(paths: Paths, s: State, ev: Event, o: nat, open: Open, epoch: nat)
    requires Pending(s, o, open, epoch) && Elsewhere(ev, o, open.peer)
    requires !Quiet(ev) && !(ev.OpenCalled? || ev.PeerDisconnected? || ev.Forget?)
    ensures Pending(Step(paths, s, ev), o, open, epoch)
  {
    hide Live, Available, SpawnCount;
  }

  lemma RunJoin(paths: Paths, s: State, a: seq<Event>, ev: Event)
    ensures Run(paths, s, a + [ev]) == Step(paths, Run(paths, s, a), ev)
  {
    assert (a + [ev])[..|a|] == a;
  }

  lemma {:induction false} PendingThrough(paths: Paths, before: seq<Event>, after: seq<Event>, o: nat, open: Open,
                                          epoch: nat)
    requires Pending(Run(paths, INITIAL, before), o, open, epoch) && AllElsewhere(after, o, open.peer)
    ensures Pending(Run(paths, INITIAL, before + after), o, open, epoch)
    decreases |after|
  {
    if after == [] {
      assert before + after == before;
    } else {
      var front, last := after[..|after| - 1], after[|after| - 1];
      assert before + after == before + front + [last];
      hide Run, Step, Pending, Elsewhere;
      assert AllElsewhere(front, o, open.peer);
      PendingThrough(paths, before, front, o, open, epoch);
      RunJoin(paths, INITIAL, before + front, last);
      PendingStays(paths, Run(paths, INITIAL, before + front), last, o, open, epoch);
    }
  }

  /** The three stretches of one open within a run: admitted after `before`, resolved after `mid` more
    * events, spawned after `late` more. */
  function Whole(before: seq<Event>, mid: seq<Event>, late: seq<Event>, o: nat, found: Option<Dir>, freshId: string)
    : seq<Event>
  {
    before + [Event.Admit(o, true)] + mid + [Event.CwdResolved(o, found, true)] + late
      + [Event.Spawned(o, freshId, true)]
  }

  /** What is asked of the run around the open. */
  ghost predicate Unhindered(paths: Paths, before: seq<Event>, mid: seq<Event>, late: seq<Event>, o: nat,
                             found: Option<Dir>, freshId: string)
  {
    var s0 := Run(paths, INITIAL, before);
    var admitted := before + [Event.Admit(o, true)] + mid;
    var s1 := Run(paths, INITIAL, admitted);
    var s2 := Run(paths, INITIAL, admitted + [Event.CwdResolved(o, found, true)] + late);
    && o in s0.opens && s0.opens[o].phase == Awaiting && !s0.disposed
    && |Live(s0, s0.opens[o].peer)| + |Flying(s0, s0.opens[o].peer)| < 16
    && AllElsewhere(mid, o, s0.opens[o].peer) && AllElsewhere(late, o, s0.opens[o].peer)
    && (forall w :: w in s1.removing ==> !paths.inside(found.GetOr(paths.home), w))
    && freshId !in s2.sessions && s0.opens[o].resumes.GetOr(freshId) !in s2.sessions
  }

  /** An open below the cap registers its session, in the directory it resolved to, if that directory
    * lies in no worktree being removed when it is resolved, and meanwhile its peer stays, the service
    * runs, and nobody else resumes the same history. */
  lemma RegistersInTheEnd(paths: Paths, before: seq<Event>, mid: seq<Event>, late: seq<Event>, o: nat,
                          found: Option<Dir>, freshId: string)
    requires Reflexive(paths) && Unhindered(paths, before, mid, late, o, found, freshId)
    ensures var open := Run(paths, INITIAL, before).opens[o];
      var s := Run(paths, INITIAL, Whole(before, mid, late, o, found, freshId));
      var id := open.resumes.GetOr(freshId);
      && id in s.sessions && s.sessions[id] == Session(open.peer, found.GetOr(paths.home), o)
      && |Live(s, open.peer)| + |Flying(s, open.peer)| <= 16
  {
    var s0 := Run(paths, INITIAL, before);
    var open := s0.opens[o];
    var cwd := found.GetOr(paths.home);
    var a := before + [Event.Admit(o, true)];
    var b := a + mid;
    var c := b + [Event.CwdResolved(o, found, true)];
    var d := c + late;
    AdmitsExactly(paths, before, o, true);
    RunKept(paths, before);
    RunJoin(paths, INITIAL, before, Event.Admit(o, true));
    RunJoin(paths, INITIAL, b, Event.CwdResolved(o, found, true));
    RunJoin(paths, INITIAL, d, Event.Spawned(o, freshId, true));
    SessionCap(paths, Whole(before, mid, late, o, found, freshId), open.peer);
    var epoch := Epoch(s0, open.peer);
    AdmittedPending(paths, s0, o);
    hide Run, Live, Flying;
    PendingThrough(paths, a, mid, o, open.(phase := Resolving, epoch := epoch), epoch);
    ResolvedPending(paths, Run(paths, INITIAL, b), o, found, open.(phase := Resolving, epoch := epoch), epoch);
    PendingThrough(paths, c, late, o, open.(phase := Spawning, epoch := epoch, cwd := Some(cwd)), epoch);
    RegistersExactly(paths, Run(paths, INITIAL, d), o, freshId, true);
    hide Step;
  }

  lemma AdmittedPending(paths: Paths, s: State, o: nat)
    requires Inv(paths, s) && o in s.opens && s.opens[o].phase == Awaiting
    requires Step(paths, s, Event.Admit(o, true)).opens[o].phase == Resolving
    ensures var epoch := Epoch(s, s.opens[o].peer);
      Pending(Step(paths, s, Event.Admit(o, true)), o, s.opens[o].(phase := Resolving, epoch := epoch), epoch)
  {
    OpenOkOf(paths, s, o);
    hide Inv, Live;
  }

  lemma ResolvedPending(paths: Paths, s: State, o: nat, found: Option<Dir>, open: Open, epoch: nat)
    requires Pending(s, o, open, epoch) && open.phase == Resolving
    requires forall w :: w in s.removing ==> !paths.inside(found.GetOr(paths.home), w)
    ensures Pending(Step(paths, s, Event.CwdResolved(o, found, true)), o,
                    open.(phase := Spawning, cwd := Some(found.GetOr(paths.home))), epoch)
  {
  }

  // ---- removals ----

  /** A removal starts exactly where no other one is under way around it, and waits for exactly the
    * opens that are resolved inside it. */
  lemma RemovalStarts(paths: Paths, s: State, r: nat, w: Dir)
    requires r !in s.removals
    ensures var v := Step(paths, s, Event.RemovalCalled(r, w));
      if forall other :: other in s.removing ==> !paths.inside(w, other) then
        && v.removing == s.removing + {w}
        && r in v.removals && v.removals[r].worktree == w && v.removals[r].stage.Waiting?
        && (forall o :: o in v.removals[r].stage.opens <==>
              o in s.opens && s.opens[o].cwd.Some? && paths.inside(s.opens[o].cwd.value, w))
        && v.sessions == s.sessions && v.opens == s.opens
      else v == s
  {
  }

  /** Once those opens have settled, the sessions inside go and no others do; with a session spared, the
    * removal ends there and its worktree is free again. */
  lemma RemovalCloses(paths: Paths, s: State, r: nat, spared: set<string>)
    requires r in s.removals && s.removals[r].stage.Waiting?
    requires forall o :: o in s.removals[r].stage.opens && o in s.opens ==> s.opens[o].phase == Settled
    ensures var w, v := s.removals[r].worktree, Step(paths, s, Event.OpensSettled(r, spared));
      && (forall id :: id in v.sessions <==>
            id in s.sessions && (!paths.inside(s.sessions[id].cwd, w) || id in spared))
      && (forall id :: id in v.sessions ==> v.sessions[id] == s.sessions[id])
      && (if exists id :: id in s.sessions && id in spared && paths.inside(s.sessions[id].cwd, w)
          then r !in v.removals && v.removing == s.removing - {w}
          else r in v.removals && v.removals[r] == Removal(w, Closing) && v.removing == s.removing)
      && v.opens == s.opens
  {
    var w := s.removals[r].worktree;
    var found := InWorktree(paths, s, w);
    assert (exists id :: id in s.sessions && id in spared && paths.inside(s.sessions[id].cwd, w))
      <==> found * spared != {} by {
      if id :| id in s.sessions && id in spared && paths.inside(s.sessions[id].cwd, w) {
        assert id in found * spared;
      }
      if found * spared != {} {
        var id :| id in found * spared;
      }
    }
  }

  /** The work runs when the sessions are closed, and when it ends, the worktree is free again. */
  lemma RemovalEnds(paths: Paths, s: State, r: nat)
    requires r in s.removals
    ensures s.removals[r].stage == Closing ==>
      Step(paths, s, Event.SessionsClosed(r)) ==
        s.(removals := s.removals[r := Removal(s.removals[r].worktree, Working)])
    ensures Step(paths, s, Event.RemovalEnded(r)) ==
      s.(removals := s.removals - {r}, removing := s.removing - {s.removals[r].worktree})
  {
  }

  // ---- the rest ----

  /** A disconnect makes every spawn of the peer in flight stale, and ends no session by itself. */
  lemma DisconnectStales(paths: Paths, s: State, peer: Peer)
    requires Inv(paths, s)
    ensures var v := Step(paths, s, Event.PeerDisconnected(peer));
      && v.sessions == s.sessions && v.removals == s.removals && v.opens.Keys == s.opens.Keys
      && (forall o :: o in s.opens && InFlight(s.opens[o]) && s.opens[o].peer == peer ==>
           v.opens[o].epoch < Epoch(v, peer))
      && (forall p :: p != peer ==> Epoch(v, p) == Epoch(s, p))
      && (forall o :: o in s.opens && s.opens[o].peer != peer ==> v.opens[o] == s.opens[o])
  {
    forall o | o in s.opens && InFlight(s.opens[o]) ensures s.opens[o].epoch <= Epoch(s, s.opens[o].peer) {
      OpenOkOf(paths, s, o);
    }
    hide Inv;
  }

  /** A session ends alone, and all of them when the service is disposed. */
  lemma SessionsEnd(paths: Paths, s: State, id: string)
    ensures Step(paths, s, Event.SessionEnded(id)) == s.(sessions := s.sessions - {id})
    ensures var v := Step(paths, s, Event.Dispose); v.disposed && v.sessions == map[]
  {
  }

  /** A call adds one open, which waits its turn. */
  lemma OpenWaits(paths: Paths, s: State, peer: Peer, resumes: Option<string>)
    ensures var v := Step(paths, s, Event.OpenCalled(peer, resumes));
      && s.nextOpen in v.opens && v.nextOpen > s.nextOpen
      && v.opens[s.nextOpen].peer == peer && v.opens[s.nextOpen].resumes == resumes
      && v.opens[s.nextOpen].phase == Awaiting && v.opens[s.nextOpen].cwd.None?
      && v.sessions == s.sessions
      && (forall o :: o != s.nextOpen ==> (o in v.opens <==> o in s.opens))
      && (forall o :: o != s.nextOpen && o in s.opens ==> v.opens[o] == s.opens[o])
  {
  }
}
