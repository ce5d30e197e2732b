/** Admission of remote shells (federation-pty-service.ts): opens and worktree removals interleave
  * at their await points. One event is one stretch of code between two awaits. */
module PtyAdmission {
  import opened Prelude

  const MAX_SESSIONS_PER_PEER := 16

  type Dir = string
  type Peer = string

  /** Path containment and the home directory are taken as given. */
  datatype Paths = Paths(inside: (Dir, Dir) -> bool, home: Dir)

  datatype Phase = Awaiting | Resolving | Spawning | Snapshotting | Settled

  /** One pending open. `left` records, for the claims below only, that its peer disconnected
    * after the open was admitted. */
  datatype Open = Open(peer: Peer, phase: Phase, epoch: nat, cwd: Option<Dir>, resumes: Option<string>, left: bool)

  datatype Session = Session(peer: Peer, cwd: Dir, opener: nat)

  datatype Stage = Waiting(opens: set<nat>) | Closing | Working

  datatype Removal = Removal(worktree: Dir, stage: Stage)

  datatype State = State(sessions: map<string, Session>,
                         epochs: map<Peer, nat>,
                         spawning: map<Peer, nat>,
                         opens: map<nat, Open>,
                         nextOpen: nat,
                         removing: set<Dir>,
                         removals: map<nat, Removal>,
                         disposed: bool)

  datatype Event =
    | OpenCalled(peer: Peer, resumes: Option<string>)
    | Admit(open: nat, allowed: bool)
    | CwdResolved(open: nat, cwd: Option<Dir>, allowed: bool)
    | CwdFailed(open: nat)
    | SpawnFailed(open: nat)
    | Spawned(open: nat, freshId: string, allowed: bool)
    | Snapshotted(open: nat)
    | Forget(open: nat)
    | PeerDisconnected(peer: Peer)
    | SessionEnded(id: string)
    | Dispose
    | RemovalCalled(removal: nat, worktree: Dir)
    | OpensSettled(removal: nat, spared: set<string>)
    | SessionsClosed(removal: nat)
    | RemovalEnded(removal: nat)

  const INITIAL := State(map[], map[], map[], map[], 0, {}, map[], false)

  function Epoch(s: State, peer: Peer): nat {
    if peer in s.epochs then s.epochs[peer] else 0
  }

  function SpawnCount(s: State, peer: Peer): nat {
    if peer in s.spawning then s.spawning[peer] else 0
  }

  predicate InFlight(o: Open) {
    o.phase == Resolving || o.phase == Spawning
  }

  function Live(s: State, peer: Peer): set<string> {
    set id | id in s.sessions && s.sessions[id].peer == peer
  }

  function Flying(s: State, peer: Peer): set<nat> {
    set o | o in s.opens && s.opens[o].peer == peer && InFlight(s.opens[o])
  }

  predicate Available(paths: Paths, s: State, dir: Dir) {
    forall w :: w in s.removing ==> !paths.inside(dir, w)
  }

  /** Sessions that run inside the worktree. */
  function InWorktree(paths: Paths, s: State, worktree: Dir): set<string> {
    set id | id in s.sessions && paths.inside(s.sessions[id].cwd, worktree)
  }

  /** Pending opens already resolved to a directory inside the worktree. */
  function OpensIn(paths: Paths, s: State, worktree: Dir): set<nat> {
    set o | o in s.opens && s.opens[o].cwd.Some? && paths.inside(s.opens[o].cwd.value, worktree)
  }

  function WithOpen(s: State, o: nat, open: Open): State {
    s.(opens := s.opens[o := open])
  }

  /** The `finally` of a spawn: one fewer in flight, and no entry at zero. */
  function Landed(s: State, peer: Peer): State {
    var count: int := if peer in s.spawning then s.spawning[peer] else 1;
    var remaining := count - 1;
    s.(spawning := if remaining > 0 then s.spawning[peer := remaining] else s.spawning - {peer})
  }

  function EndRemoval(s: State, r: nat): State
    requires r in s.removals
  {
    s.(removals := s.removals - {r}, removing := s.removing - {s.removals[r].worktree})
  }

  /** Events that are not possible in a state leave it as it is. */
  function Step(paths: Paths, s: State, ev: Event): State {
    match ev
    case OpenCalled(peer, resumes) =>
      WithOpen(s, s.nextOpen, Open(peer, Awaiting, 0, None, resumes, false)).(nextOpen := s.nextOpen + 1)
    case Admit(o, allowed) =>
      if !(o in s.opens && s.opens[o].phase == Awaiting) then s
      else
        var open := s.opens[o];
        if !allowed || s.disposed || |Live(s, open.peer)| + SpawnCount(s, open.peer) >= MAX_SESSIONS_PER_PEER
        then WithOpen(s, o, open.(phase := Settled))
        else WithOpen(s.(spawning := s.spawning[open.peer := SpawnCount(s, open.peer) + 1]), o,
                      open.(phase := Resolving, epoch := Epoch(s, open.peer)))
    case CwdResolved(o, found, allowed) =>
      if !(o in s.opens && s.opens[o].phase == Resolving) then s
      else
        var cwd := found.GetOr(paths.home);
        var open := s.opens[o].(cwd := Some(cwd));
        if !Available(paths, s, cwd) || !allowed then WithOpen(Landed(s, open.peer), o, open.(phase := Settled))
        else WithOpen(s, o, open.(phase := Spawning))
    case CwdFailed(o) =>
      if !(o in s.opens && s.opens[o].phase == Resolving) then s
      else WithOpen(Landed(s, s.opens[o].peer), o, s.opens[o].(phase := Settled))
    case SpawnFailed(o) =>
      if !(o in s.opens && s.opens[o].phase == Spawning) then s
      else WithOpen(Landed(s, s.opens[o].peer), o, s.opens[o].(phase := Settled))
    case Spawned(o, freshId, allowed) =>
      if !(o in s.opens && s.opens[o].phase == Spawning && s.opens[o].cwd.Some? && freshId !in s.sessions) then s
      else
        var open := s.opens[o];
        var s1 := Landed(s, open.peer);
        var id := open.resumes.GetOr(freshId);
        if s.disposed || !allowed || Epoch(s, open.peer) != open.epoch || id in s.sessions
        then WithOpen(s1, o, open.(phase := Settled))
        else
          WithOpen(s1, o, open.(phase := Snapshotting))
            .(sessions := s.sessions[id := Session(open.peer, open.cwd.value, o)])
    case Snapshotted(o) =>
      if !(o in s.opens && s.opens[o].phase == Snapshotting) then s else WithOpen(s, o, s.opens[o].(phase := Settled))
    case Forget(o) =>
      if !(o in s.opens && s.opens[o].phase == Settled) then s else s.(opens := s.opens - {o})
    case PeerDisconnected(peer) =>
      s.(epochs := s.epochs[peer := Epoch(s, peer) + 1],
         opens := map o | o in s.opens ::
           if s.opens[o].peer == peer && InFlight(s.opens[o]) then s.opens[o].(left := true) else s.opens[o])
    case SessionEnded(id) => s.(sessions := s.sessions - {id})
    case Dispose => s.(disposed := true, sessions := map[])
    case RemovalCalled(r, w) =>
      if r in s.removals || !Available(paths, s, w) then s
      else
        s.(removing := s.removing + {w}, removals := s.removals[r := Removal(w, Waiting(OpensIn(paths, s, w)))])
    case OpensSettled(r, spared) =>
      if !(r in s.removals && s.removals[r].stage.Waiting? && AllSettled(s, s.removals[r].stage.opens)) then s
      else
        // `assertCurrent` throws for the spared sessions; the others are deleted at once.
        var w := s.removals[r].worktree;
        var found := InWorktree(paths, s, w);
        var s1 := s.(sessions := s.sessions - (found - spared));
        if found * spared != {} then EndRemoval(s1, r)
        else s1.(removals := s1.removals[r := Removal(w, Closing)])
    case SessionsClosed(r) =>
      if !(r in s.removals && s.removals[r].stage == Closing) then s
      else s.(removals := s.removals[r := s.removals[r].(stage := Working)])
    case RemovalEnded(r) => if r in s.removals then EndRemoval(s, r) else s
  }

  predicate AllSettled(s: State, opens: set<nat>) {
    forall o :: o in opens && o in s.opens ==> s.opens[o].phase == Settled
  }

  function Run(paths: Paths, s: State, events: seq<Event>): State
    decreases |events|
  {
    if events == [] then s
    else Step(paths, Run(paths, s, events[..|events| - 1]), events[|events| - 1])
  }

  // ---- invariant ----

  /** A path lies inside itself; this is all the claims need of containment. */
  ghost predicate Reflexive(paths: Paths) {
    forall w :: paths.inside(w, w)
  }

  predicate OpenOk(s: State, o: Open) {
    && (o.phase == Spawning ==> o.cwd.Some?)
    && (InFlight(o) ==> o.epoch <= Epoch(s, o.peer))
    && (InFlight(o) && o.left ==> o.epoch < Epoch(s, o.peer))
    && (o.phase == Awaiting ==> !o.left)
  }

  /** An admitted spawn could still register a session inside the worktree. */
  predicate Threatens(paths: Paths, o: Open, worktree: Dir) {
    o.phase == Spawning && o.cwd.Some? && paths.inside(o.cwd.value, worktree)
  }

  predicate RemovalOk(paths: Paths, s: State, removal: Removal) {
    && removal.worktree in s.removing
    && match removal.stage {
      case Waiting(opens) => forall o :: o in s.opens && Threatens(paths, s.opens[o], removal.worktree) ==> o in opens
      case _ =>
        && (forall o :: o in s.opens ==> !Threatens(paths, s.opens[o], removal.worktree))
        && (forall id :: id in s.sessions ==> !paths.inside(s.sessions[id].cwd, removal.worktree))
    }
  }

  /** The counter of spawns is exact, and sessions and spawns together stay within the cap. */
  predicate CappedFor(s: State, peer: Peer) {
    && SpawnCount(s, peer) == |Flying(s, peer)|
    && (peer in s.spawning ==> s.spawning[peer] > 0)
    && |Live(s, peer)| + |Flying(s, peer)| <= MAX_SESSIONS_PER_PEER
  }

  ghost predicate Inv(paths: Paths, s: State) {
    && (forall o :: o in s.opens ==> o < s.nextOpen && OpenOk(s, s.opens[o]))
    && (forall r :: r in s.removals ==> RemovalOk(paths, s, s.removals[r]))
    && (forall a, b :: a in s.removals && b in s.removals && s.removals[a].worktree == s.removals[b].worktree ==>
         a == b)
  }

  /** Everything that does not add a spawn or a session inside a worktree being removed. */
  lemma RemovalStays(paths: Paths, s: State, o: nat, open: Open, s': State, removal: Removal)
    requires RemovalOk(paths, s, removal)
    requires Threatens(paths, open, removal.worktree) ==> o in s.opens && Threatens(paths, s.opens[o], removal.worktree)
    requires s' == s.(opens := s.opens[o := open], spawning := s'.spawning, nextOpen := s'.nextOpen)
    ensures RemovalOk(paths, s', removal)
  {
    hide Threatens;
  }

  lemma OpenKept(paths: Paths, s: State, o: nat, open: Open, s': State)
    requires Inv(paths, s) && OpenOk(s, open) && o < s'.nextOpen && s.nextOpen <= s'.nextOpen
    requires forall w :: w in s.removing && Threatens(paths, open, w) ==>
      o in s.opens && Threatens(paths, s.opens[o], w)
    requires s' == s.(opens := s.opens[o := open], spawning := s'.spawning, nextOpen := s'.nextOpen)
    ensures Inv(paths, s')
  {
    forall r | r in s.removals ensures RemovalOk(paths, s', s.removals[r]) {
      hide Threatens, OpenOk;
      assert RemovalOk(paths, s, s.removals[r]);
      RemovalStays(paths, s, o, open, s', s.removals[r]);
    }
    hide RemovalOk, Threatens;
  }

  lemma SpawnedKept(paths: Paths, s: State, o: nat, id: string)
    requires Inv(paths, s) && o in s.opens && s.opens[o].phase == Spawning && s.opens[o].cwd.Some?
    ensures var open := s.opens[o]; var v := Landed(s, open.peer);
      Inv(paths, WithOpen(v, o, open.(phase := Snapshotting))
                   .(sessions := s.sessions[id := Session(open.peer, open.cwd.value, o)]))
  {
    // A removal past its wait has no admitted spawn inside its worktree, so this one is outside.
    var open := s.opens[o];
    forall r | r in s.removals && !s.removals[r].stage.Waiting?
      ensures !paths.inside(open.cwd.value, s.removals[r].worktree)
    {
      assert RemovalOk(paths, s, s.removals[r]);
      assert !Threatens(paths, open, s.removals[r].worktree);
    }
    var v := WithOpen(Landed(s, open.peer), o, open.(phase := Snapshotting));
    OpenKept(paths, s, o, open.(phase := Snapshotting), v);
    SessionKept(paths, v, id, Session(open.peer, open.cwd.value, o));
  }

  lemma SessionKept(paths: Paths, s: State, id: string, session: Session)
    requires Inv(paths, s)
    requires forall r :: r in s.removals && !s.removals[r].stage.Waiting? ==>
      !paths.inside(session.cwd, s.removals[r].worktree)
    ensures Inv(paths, s.(sessions := s.sessions[id := session]))
  {
    var s' := s.(sessions := s.sessions[id := session]);
    forall r | r in s'.removals ensures RemovalOk(paths, s', s'.removals[r]) {
      assert RemovalOk(paths, s, s.removals[r]);
    }
  }

  lemma FewerSessionsKept(paths: Paths, s: State, s': State)
    requires Inv(paths, s) && s' == s.(sessions := s'.sessions, disposed := s'.disposed)
    requires forall id :: id in s'.sessions ==> id in s.sessions && s'.sessions[id] == s.sessions[id]
    ensures Inv(paths, s')
  {
  }

  lemma EndRemovalKept(paths: Paths, s: State, r: nat)
    requires Inv(paths, s) && r in s.removals
    ensures Inv(paths, EndRemoval(s, r))
  {
  }

  lemma RemovalCalledKept(paths: Paths, s: State, r: nat, w: Dir)
    requires Reflexive(paths) && Inv(paths, s)
    ensures Inv(paths, Step(paths, s, RemovalCalled(r, w)))
  {
    if r !in s.removals && Available(paths, s, w) {
      assert paths.inside(w, w);
      assert w !in s.removing;
    }
  }

  /** When the awaited opens have settled no spawn can slip in: later ones meet the guard. */
  lemma ClosingKept(paths: Paths, s: State, r: nat)
    requires Inv(paths, s) && r in s.removals && s.removals[r].stage.Waiting?
    requires AllSettled(s, s.removals[r].stage.opens) && InWorktree(paths, s, s.removals[r].worktree) == {}
    ensures Inv(paths, s.(removals := s.removals[r := Removal(s.removals[r].worktree, Closing)]))
  {
    var w := s.removals[r].worktree;
    assert RemovalOk(paths, s, s.removals[r]);
    hide Inv;
    assert forall id :: id in s.sessions && paths.inside(s.sessions[id].cwd, w) ==> id in InWorktree(paths, s, w);
    assert RemovalOk(paths, s, Removal(w, Closing));
    StageKept(paths, s, r, Removal(w, Closing));
  }

  lemma OpensSettledKept(paths: Paths, s: State, r: nat, spared: set<string>)
    requires Inv(paths, s)
    ensures Inv(paths, Step(paths, s, OpensSettled(r, spared)))
  {
    if r in s.removals && s.removals[r].stage.Waiting? && AllSettled(s, s.removals[r].stage.opens) {
      var w := s.removals[r].worktree;
      var found := InWorktree(paths, s, w);
      var s1 := s.(sessions := s.sessions - (found - spared));
      FewerSessionsKept(paths, s, s1);
      if found * spared != {} {
        EndRemovalKept(paths, s1, r);
      } else {
        assert forall id :: id in s1.sessions && id in found ==> id in found * spared;
        assert InWorktree(paths, s1, w) == {};
        ClosingKept(paths, s1, r);
      }
    }
  }

  lemma DisconnectedKept(paths: Paths, s: State, peer: Peer)
    requires Inv(paths, s)
    ensures Inv(paths, Step(paths, s, PeerDisconnected(peer)))
  {
    var s' := Step(paths, s, PeerDisconnected(peer));
    forall o, w | o in s'.opens ensures Threatens(paths, s'.opens[o], w) <==> Threatens(paths, s.opens[o], w) {}
  }

  lemma OpenOkOf(paths: Paths, s: State, o: nat)
    requires Inv(paths, s)
    ensures o in s.opens ==> OpenOk(s, s.opens[o]) && o < s.nextOpen
  {
  }

  lemma ForgetKept(paths: Paths, s: State, o: nat)
    requires Inv(paths, s)
    ensures Inv(paths, Step(paths, s, Forget(o)))
  {
  }

  lemma OpenCalledKept(paths: Paths, s: State, peer: Peer, resumes: Option<string>)
    requires Inv(paths, s)
    ensures Inv(paths, Step(paths, s, OpenCalled(peer, resumes)))
  {
    var s' := Step(paths, s, OpenCalled(peer, resumes));
    hide Inv, RemovalOk;
    OpenKept(paths, s, s.nextOpen, s'.opens[s.nextOpen], s');
  }

  lemma AdmitKept(paths: Paths, s: State, o: nat, allowed: bool)
    requires Inv(paths, s)
    ensures Inv(paths, Step(paths, s, Admit(o, allowed)))
  {
    var s' := Step(paths, s, Admit(o, allowed));
    OpenOkOf(paths, s, o);
    hide Inv, RemovalOk, Live;
    if s' != s {
      OpenKept(paths, s, o, s'.opens[o], s');
    }
  }

  lemma SettlingKept(paths: Paths, s: State, ev: Event)
    requires Inv(paths, s) && (ev.CwdFailed? || ev.SpawnFailed? || ev.Snapshotted?)
    ensures Inv(paths, Step(paths, s, ev))
  {
    var s' := Step(paths, s, ev);
    OpenOkOf(paths, s, ev.open);
    hide Inv, RemovalOk, Live;
    if s' != s {
      OpenKept(paths, s, ev.open, s'.opens[ev.open], s');
    }
  }

  lemma CwdResolvedKept(paths: Paths, s: State, o: nat, found: Option<Dir>, allowed: bool)
    requires Inv(paths, s)
    ensures Inv(paths, Step(paths, s, CwdResolved(o, found, allowed)))
  {
    var s' := Step(paths, s, CwdResolved(o, found, allowed));
    if s' != s {
      OpenKept(paths, s, o, s'.opens[o], s');
    }
  }

  lemma SpawnedEventKept(paths: Paths, s: State, o: nat, freshId: string, allowed: bool)
    requires Inv(paths, s)
    ensures Inv(paths, Step(paths, s, Spawned(o, freshId, allowed)))
  {
    var s' := Step(paths, s, Spawned(o, freshId, allowed));
    if s' != s {
      if s'.opens[o].phase == Settled {
        OpenKept(paths, s, o, s'.opens[o], s');
      } else {
        SpawnedKept(paths, s, o, s.opens[o].resumes.GetOr(freshId));
      }
    }
  }

  lemma StepKept(paths: Paths, s: State, ev: Event)
    requires Reflexive(paths) && Inv(paths, s)
    ensures Inv(paths, Step(paths, s, ev))
  {
    match ev
    case CwdResolved(o, found, allowed) => CwdResolvedKept(paths, s, o, found, allowed);
    case Spawned(o, freshId, allowed) => SpawnedEventKept(paths, s, o, freshId, allowed);
    case PeerDisconnected(peer) => DisconnectedKept(paths, s, peer);
    case SessionEnded(id) => FewerSessionsKept(paths, s, Step(paths, s, ev));
    case Dispose => FewerSessionsKept(paths, s, Step(paths, s, ev));
    case RemovalCalled(r, w) => RemovalCalledKept(paths, s, r, w);
    case OpensSettled(r, spared) => OpensSettledKept(paths, s, r, spared);
    case SessionsClosed(r) => SessionsClosedKept(paths, s, r);
    case RemovalEnded(r) => if r in s.removals { EndRemovalKept(paths, s, r); }
    case OpenCalled(peer, resumes) => OpenCalledKept(paths, s, peer, resumes);
    case Admit(o, allowed) => AdmitKept(paths, s, o, allowed);
    case Forget(o) => ForgetKept(paths, s, o);
    case _ => SettlingKept(paths, s, ev);
  }

  lemma StageKept(paths: Paths, s: State, r: nat, removal: Removal)
    requires Inv(paths, s) && r in s.removals && removal.worktree == s.removals[r].worktree
      && RemovalOk(paths, s, removal)
    ensures Inv(paths, s.(removals := s.removals[r := removal]))
  {
    var s' := s.(removals := s.removals[r := removal]);
    forall q | q in s'.removals ensures RemovalOk(paths, s', s'.removals[q]) {
      assert RemovalOk(paths, s, s'.removals[q]);
    }
  }

  lemma SessionsClosedKept(paths: Paths, s: State, r: nat)
    requires Inv(paths, s)
    ensures Inv(paths, Step(paths, s, SessionsClosed(r)))
  {
    if r in s.removals && s.removals[r].stage == Closing {
      assert RemovalOk(paths, s, s.removals[r]);
      hide Inv;
      StageKept(paths, s, r, s.removals[r].(stage := Working));
    }
  }

  lemma {:induction false} RunKept(paths: Paths, events: seq<Event>)
    requires Reflexive(paths)
    ensures Inv(paths, Run(paths, INITIAL, events))
    decreases |events|
  {
    if events != [] {
      var before := events[..|events| - 1];
      RunKept(paths, before);
      StepKept(paths, Run(paths, INITIAL, before), events[|events| - 1]);
    }
  }

  // ---- the claims ----

  /** While the work of a removal runs, no shell is registered inside the worktree and no admitted
    * spawn can still become one; and no two removals work on the same path. */
  lemma ExclusiveRemoval(paths: Paths, events: seq<Event>, r: nat)
    requires Reflexive(paths)
    requires r in Run(paths, INITIAL, events).removals && Run(paths, INITIAL, events).removals[r].stage == Working
    ensures var s := Run(paths, INITIAL, events); var w := s.removals[r].worktree;
      && InWorktree(paths, s, w) == {}
      && (forall o :: o in s.opens ==> !Threatens(paths, s.opens[o], w))
      && (forall other :: other in s.removals && s.removals[other].worktree == w ==> other == r)
  {
    RunKept(paths, events);
    var s := Run(paths, INITIAL, events);
    assert RemovalOk(paths, s, s.removals[r]);
  }

  // ---- the cap ----

  lemma FlyingAfter(s: State, o: nat, open: Open, s': State, peer: Peer)
    requires s'.opens == s.opens[o := open]
    ensures Flying(s', peer) == if open.peer == peer && InFlight(open) then Flying(s, peer) + {o}
      else Flying(s, peer) - {o}
  {
  }

  /** An open in flight ends: the counter follows, and a registered session takes its place. */
  lemma LandedCapped(s: State, o: nat, open: Open, s': State, peer: Peer)
    requires o in s.opens && InFlight(s.opens[o]) && open.peer == s.opens[o].peer && !InFlight(open)
    requires CappedFor(s, peer) && CappedFor(s, open.peer)
    requires s'.opens == s.opens[o := open] && s'.spawning == Landed(s, open.peer).spawning
    requires |Live(s', peer)| <= |Live(s, peer)| + (if peer == open.peer then 1 else 0)
    ensures CappedFor(s', peer)
  {
    FlyingAfter(s, o, open, s', peer);
    assert o in Flying(s, open.peer);
  }

  /** Events that neither start nor end a spawn nor register a session. */
  predicate Quiet(ev: Event) {
    ev.SessionEnded? || ev.Dispose? || ev.RemovalCalled? || ev.OpensSettled? || ev.SessionsClosed? || ev.RemovalEnded?
  }

  lemma RemovalShape(paths: Paths, s: State, r: nat, spared: set<string>)
    ensures var s' := Step(paths, s, OpensSettled(r, spared));
      && s'.opens == s.opens && s'.spawning == s.spawning && s'.nextOpen == s.nextOpen
      && (forall id :: id in s'.sessions ==> id in s.sessions && s'.sessions[id] == s.sessions[id])
  {
    hide AllSettled, InWorktree;
  }

  lemma QuietShape(paths: Paths, s: State, ev: Event)
    requires Quiet(ev)
    ensures var s' := Step(paths, s, ev);
      && s'.opens == s.opens && s'.spawning == s.spawning && s'.nextOpen == s.nextOpen
      && (forall id :: id in s'.sessions ==> id in s.sessions && s'.sessions[id] == s.sessions[id])
  {
    hide AllSettled, InWorktree, OpensIn, Available;
    if ev.OpensSettled? {
      RemovalShape(paths, s, ev.removal, ev.spared);
    }
  }

  lemma SubsetCapped(s: State, s': State, peer: Peer)
    requires CappedFor(s, peer) && s'.opens == s.opens && s'.spawning == s.spawning
    requires forall id :: id in s'.sessions ==> id in s.sessions && s'.sessions[id] == s.sessions[id]
    ensures CappedFor(s', peer)
  {
    assert Flying(s', peer) == Flying(s, peer);
    SmallerSet(Live(s', peer), Live(s, peer));
  }

  lemma SameFlying(s: State, s': State, peer: Peer)
    requires CappedFor(s, peer) && s'.sessions == s.sessions && s'.spawning == s.spawning
    requires Flying(s', peer) == Flying(s, peer)
    ensures CappedFor(s', peer)
  {
    SameLive(s, s', peer);
  }

  lemma DisconnectCapped(paths: Paths, s: State, gone: Peer, peer: Peer)
    requires CappedFor(s, peer)
    ensures CappedFor(Step(paths, s, PeerDisconnected(gone)), peer)
  {
    var s' := Step(paths, s, PeerDisconnected(gone));
    assert Flying(s', peer) == Flying(s, peer);
    SameFlying(s, s', peer);
  }

  lemma BookkeepingCapped(paths: Paths, s: State, ev: Event, peer: Peer)
    requires CappedFor(s, peer) && (forall o :: o in s.opens ==> o < s.nextOpen)
    requires ev.OpenCalled? || ev.Snapshotted? || ev.Forget?
    ensures CappedFor(Step(paths, s, ev), peer)
  {
    var s' := Step(paths, s, ev);
    BookkeepingShape(paths, s, ev, peer);
    hide Step, Flying, CappedFor;
    SameFlying(s, s', peer);
  }

  lemma BookkeepingShape(paths: Paths, s: State, ev: Event, peer: Peer)
    requires (forall o :: o in s.opens ==> o < s.nextOpen) && (ev.OpenCalled? || ev.Snapshotted? || ev.Forget?)
    ensures var s' := Step(paths, s, ev);
      s'.sessions == s.sessions && s'.spawning == s.spawning && Flying(s', peer) == Flying(s, peer)
  {
  }

  lemma ResolvedCapped(paths: Paths, s: State, o: nat, found: Option<Dir>, allowed: bool, peer: Peer)
    requires CappedFor(s, peer) && (o in s.opens ==> CappedFor(s, s.opens[o].peer))
    ensures CappedFor(Step(paths, s, CwdResolved(o, found, allowed)), peer)
  {
    var s' := Step(paths, s, CwdResolved(o, found, allowed));
    if s' != s {
      SameLive(s, s', peer);
      EndsOrSpawns(s, o, s'.opens[o], s', peer);
    }
  }

  lemma FailedCapped(paths: Paths, s: State, ev: Event, peer: Peer)
    requires ev.CwdFailed? || ev.SpawnFailed?
    requires CappedFor(s, peer) && (ev.open in s.opens ==> CappedFor(s, s.opens[ev.open].peer))
    ensures CappedFor(Step(paths, s, ev), peer)
  {
    var s' := Step(paths, s, ev);
    if s' != s {
      SameLive(s, s', peer);
      LandedCapped(s, ev.open, s'.opens[ev.open], s', peer);
    }
  }

  lemma StepCapped(paths: Paths, s: State, ev: Event, peer: Peer)
    requires forall p :: CappedFor(s, p)
    requires forall o :: o in s.opens ==> o < s.nextOpen
    ensures CappedFor(Step(paths, s, ev), peer)
  {
    assert CappedFor(s, peer);
    match ev
    case Admit(o, allowed) => AdmitCapped(paths, s, o, allowed, peer);
    case Spawned(o, freshId, allowed) => SpawnedCapped(paths, s, o, freshId, allowed, peer);
    case CwdResolved(o, found, allowed) => ResolvedCapped(paths, s, o, found, allowed, peer);
    case CwdFailed(_) => FailedCapped(paths, s, ev, peer);
    case SpawnFailed(_) => FailedCapped(paths, s, ev, peer);
    case OpenCalled(_, _) => BookkeepingCapped(paths, s, ev, peer);
    case Snapshotted(_) => BookkeepingCapped(paths, s, ev, peer);
    case Forget(_) => BookkeepingCapped(paths, s, ev, peer);
    case PeerDisconnected(gone) => DisconnectCapped(paths, s, gone, peer);
    case _ =>
      QuietShape(paths, s, ev);
      SubsetCapped(s, Step(paths, s, ev), peer);
  }

  lemma SameLive(s: State, s': State, peer: Peer)
    requires s'.sessions == s.sessions
    ensures Live(s', peer) == Live(s, peer)
  {
  }

  lemma EndsOrSpawns(s: State, o: nat, open: Open, s': State, peer: Peer)
    requires o in s.opens && InFlight(s.opens[o]) && open.peer == s.opens[o].peer
    requires CappedFor(s, peer) && CappedFor(s, open.peer) && Live(s', peer) == Live(s, peer)
    requires s'.opens == s.opens[o := open]
    requires if InFlight(open) then s'.spawning == s.spawning else s'.spawning == Landed(s, open.peer).spawning
    ensures CappedFor(s', peer)
  {
    if InFlight(open) {
      FlyingAfter(s, o, open, s', peer);
      assert Flying(s', peer) == Flying(s, peer);
    } else {
      LandedCapped(s, o, open, s', peer);
    }
  }

  /** One more spawn in flight, below the cap. */
  lemma AdmittedCapped(s: State, o: nat, open: Open, s': State, peer: Peer)
    requires CappedFor(s, peer) && CappedFor(s, open.peer) && o in s.opens && !InFlight(s.opens[o])
      && open.peer == s.opens[o].peer
    requires s'.opens == s.opens[o := open] && s'.sessions == s.sessions
    requires if InFlight(open) then s'.spawning == s.spawning[open.peer := SpawnCount(s, open.peer) + 1]
      else s'.spawning == s.spawning
    requires InFlight(open) ==> |Live(s, open.peer)| + SpawnCount(s, open.peer) < MAX_SESSIONS_PER_PEER
    ensures CappedFor(s', peer)
  {
    FlyingAfter(s, o, open, s', peer);
    SameLive(s, s', peer);
    assert o !in Flying(s, peer);
    hide Live;
  }

  lemma AdmitCapped(paths: Paths, s: State, o: nat, allowed: bool, peer: Peer)
    requires forall p :: CappedFor(s, p)
    ensures CappedFor(Step(paths, s, Admit(o, allowed)), peer)
  {
    var s' := Step(paths, s, Admit(o, allowed));
    assert CappedFor(s, peer);
    if s' != s {
      assert CappedFor(s, s.opens[o].peer);
      hide CappedFor, Live;
      AdmittedCapped(s, o, s'.opens[o], s', peer);
    }
  }

  lemma RegisteredCapped(s: State, s': State, o: nat, open: Open, id: string, peer: Peer)
    requires o in s.opens && InFlight(s.opens[o]) && open.peer == s.opens[o].peer && !InFlight(open)
    requires CappedFor(s, peer) && CappedFor(s, open.peer) && id !in s.sessions
    requires s'.opens == s.opens[o := open] && s'.spawning == Landed(s, open.peer).spawning
    requires id in s'.sessions && s'.sessions == s.sessions[id := s'.sessions[id]] && s'.sessions[id].peer == open.peer
    ensures CappedFor(s', peer)
  {
    assert Live(s', peer) == if open.peer == peer then Live(s, peer) + {id} else Live(s, peer);
    LandedCapped(s, o, open, s', peer);
  }

  lemma SpawnedCapped(paths: Paths, s: State, o: nat, freshId: string, allowed: bool, peer: Peer)
    requires forall p :: CappedFor(s, p)
    ensures CappedFor(Step(paths, s, Spawned(o, freshId, allowed)), peer)
  {
    var s' := Step(paths, s, Spawned(o, freshId, allowed));
    assert CappedFor(s, peer);
    if s' != s {
      var open := s.opens[o];
      assert CappedFor(s, open.peer);
      if s'.opens[o].phase == Snapshotting {
        RegisteredCapped(s, s', o, s'.opens[o], open.resumes.GetOr(freshId), peer);
      } else {
        SameLive(s, s', peer);
        LandedCapped(s, o, open.(phase := Settled), s', peer);
      }
    }
  }

  lemma {:induction false} RunCapped(paths: Paths, events: seq<Event>)
    requires Reflexive(paths)
    ensures forall peer :: CappedFor(Run(paths, INITIAL, events), peer)
    decreases |events|
  {
    if events == [] {
      forall peer ensures CappedFor(INITIAL, peer) {
        assert Flying(INITIAL, peer) == {} && Live(INITIAL, peer) == {};
      }
    } else {
      var before := events[..|events| - 1];
      RunCapped(paths, before);
      RunKept(paths, before);
      var s, ev := Run(paths, INITIAL, before), events[|events| - 1];
      forall peer ensures CappedFor(Step(paths, s, ev), peer) { StepCapped(paths, s, ev, peer); }
    }
  }

  /** Concurrent opens cannot slip past the cap: sessions plus spawns in flight never exceed it. */
  lemma SessionCap(paths: Paths, events: seq<Event>, peer: Peer)
    requires Reflexive(paths)
    ensures var s := Run(paths, INITIAL, events);
      |Live(s, peer)| + |Flying(s, peer)| <= MAX_SESSIONS_PER_PEER
  {
    RunCapped(paths, events);
    assert CappedFor(Run(paths, INITIAL, events), peer);
  }

  // ---- disconnects ----

  /** An open whose peer left while it was in flight: it has no session and will have none. */
  predicate Lost(s: State, o: nat) {
    && o < s.nextOpen
    && (forall id :: id in s.sessions ==> s.sessions[id].opener != o)
    && (o in s.opens ==> s.opens[o].phase == Settled || (s.opens[o].left && InFlight(s.opens[o])))
  }

  lemma LostStays(paths: Paths, s: State, ev: Event, o: nat)
    requires Inv(paths, s) && Lost(s, o)
    ensures Lost(Step(paths, s, ev), o)
  {
    if ev.Spawned? {
      SpawnedLost(paths, s, ev.open, ev.freshId, ev.allowed, o);
    } else {
      OtherLost(paths, s, ev, o);
    }
  }

  lemma SpawnedLost(paths: Paths, s: State, done: nat, freshId: string, allowed: bool, o: nat)
    requires Inv(paths, s) && Lost(s, o)
    ensures Lost(Step(paths, s, Spawned(done, freshId, allowed)), o)
  {
    if done == o && o in s.opens {
      assert OpenOk(s, s.opens[o]);
    }
  }

  lemma OtherLost(paths: Paths, s: State, ev: Event, o: nat)
    requires Inv(paths, s) && Lost(s, o) && !ev.Spawned?
    ensures Lost(Step(paths, s, ev), o)
  {
    if Quiet(ev) {
      QuietShape(paths, s, ev);
    } else {
      OpenEventLost(paths, s, ev, o);
    }
  }

  lemma OpenEventLost(paths: Paths, s: State, ev: Event, o: nat)
    requires Lost(s, o) && !ev.Spawned? && !Quiet(ev)
    ensures Lost(Step(paths, s, ev), o)
  {
    if ev.OpenCalled? || ev.PeerDisconnected? || ev.Forget? {
    } else {
      ProgressLost(paths, s, ev, o);
    }
  }

  lemma ProgressLost(paths: Paths, s: State, ev: Event, o: nat)
    requires Lost(s, o) && (ev.Admit? || ev.CwdResolved? || ev.CwdFailed? || ev.SpawnFailed? || ev.Snapshotted?)
    ensures Lost(Step(paths, s, ev), o)
  {
    var s' := Step(paths, s, ev);
    match ev {
      case Admit(admitted, allowed) => AdmitProgress(paths, s, admitted, allowed);
      case CwdResolved(resolved, found, allowed) => ResolvedProgress(paths, s, resolved, found, allowed);
      case _ => LateProgress(paths, s, ev);
    }
    if s' != s && ev.open != o {
      assert s'.opens == s.opens[ev.open := s'.opens[ev.open]];
    }
  }

  /** One pending open moves on; nothing else does. */
  predicate Progress(s: State, s': State, o: nat) {
    && s'.sessions == s.sessions && s'.nextOpen == s.nextOpen
    && (s' != s ==>
          && o in s.opens && s.opens[o].phase != Settled
          && o in s'.opens && s'.opens == s.opens[o := s'.opens[o]]
          && (InFlight(s.opens[o]) ==>
                && s'.opens[o].left == s.opens[o].left
                && (InFlight(s'.opens[o]) || s'.opens[o].phase == Settled)))
  }

  lemma AdmitProgress(paths: Paths, s: State, o: nat, allowed: bool)
    ensures Progress(s, Step(paths, s, Admit(o, allowed)), o)
  {
    hide Live;
  }

  lemma ResolvedProgress(paths: Paths, s: State, o: nat, found: Option<Dir>, allowed: bool)
    ensures Progress(s, Step(paths, s, CwdResolved(o, found, allowed)), o)
  {
    hide Available;
  }

  lemma LateProgress(paths: Paths, s: State, ev: Event)
    requires ev.CwdFailed? || ev.SpawnFailed? || ev.Snapshotted?
    ensures Progress(s, Step(paths, s, ev), ev.open)
  {
  }

  /** A session's opener has left the spawn behind. */
  predicate Registered(s: State) {
    forall id :: id in s.sessions ==> OpenerDone(s, s.sessions[id].opener)
  }

  predicate OpenerDone(s: State, o: nat) {
    o < s.nextOpen && (o in s.opens ==> s.opens[o].phase == Snapshotting || s.opens[o].phase == Settled)
  }

  lemma DoneStays(paths: Paths, s: State, ev: Event, o: nat)
    requires OpenerDone(s, o)
    ensures OpenerDone(Step(paths, s, ev), o)
  {
    hide Live, Available, AllSettled, InWorktree, OpensIn;
    if Quiet(ev) {
      QuietShape(paths, s, ev);
      hide Step;
    } else {
      OpenEventDone(paths, s, ev, o);
    }
  }

  lemma OpenEventDone(paths: Paths, s: State, ev: Event, o: nat)
    requires OpenerDone(s, o) && !Quiet(ev)
    ensures OpenerDone(Step(paths, s, ev), o)
  {
    if ev.OpenCalled? || ev.PeerDisconnected? || ev.Forget? {
      BookkeepingDone(paths, s, ev, o);
    } else {
      ProgressDone(paths, s, ev, o);
    }
    hide Step;
  }

  lemma BookkeepingDone(paths: Paths, s: State, ev: Event, o: nat)
    requires OpenerDone(s, o) && (ev.OpenCalled? || ev.PeerDisconnected? || ev.Forget?)
    ensures OpenerDone(Step(paths, s, ev), o)
  {
  }

  lemma ProgressDone(paths: Paths, s: State, ev: Event, o: nat)
    requires OpenerDone(s, o) && !Quiet(ev) && !(ev.OpenCalled? || ev.PeerDisconnected? || ev.Forget?)
    ensures OpenerDone(Step(paths, s, ev), o)
  {
    hide Live, Available, SpawnCount, Epoch;
  }

  lemma StepRegistered(paths: Paths, s: State, ev: Event)
    requires Registered(s) && Inv(paths, s)
    ensures Registered(Step(paths, s, ev))
  {
    var s' := Step(paths, s, ev);
    forall id | id in s'.sessions ensures OpenerDone(s', s'.sessions[id].opener) {
      if id in s.sessions && s'.sessions[id] == s.sessions[id] {
        DoneStays(paths, s, ev, s.sessions[id].opener);
      } else {
        NewSession(paths, s, ev, id);
      }
    }
  }

  lemma NewSession(paths: Paths, s: State, ev: Event, id: string)
    requires Inv(paths, s)
    requires id in Step(paths, s, ev).sessions
    requires id !in s.sessions || Step(paths, s, ev).sessions[id] != s.sessions[id]
    ensures OpenerDone(Step(paths, s, ev), Step(paths, s, ev).sessions[id].opener)
  {
    if Quiet(ev) { QuietShape(paths, s, ev); }
  }

  lemma {:induction false} RunRegistered(paths: Paths, events: seq<Event>)
    requires Reflexive(paths)
    ensures Registered(Run(paths, INITIAL, events))
    decreases |events|
  {
    if events != [] {
      var before := events[..|events| - 1];
      RunRegistered(paths, before);
      RunKept(paths, before);
      StepRegistered(paths, Run(paths, INITIAL, before), events[|events| - 1]);
    }
  }

  lemma LostAtDisconnect(paths: Paths, s: State, o: nat)
    requires Inv(paths, s) && Registered(s) && o in s.opens && InFlight(s.opens[o])
    ensures Lost(Step(paths, s, PeerDisconnected(s.opens[o].peer)), o)
  {
  }

  lemma RunMore(paths: Paths, events: seq<Event>, ev: Event)
    ensures Run(paths, INITIAL, events + [ev]) == Step(paths, Run(paths, INITIAL, events), ev)
  {
    assert (events + [ev])[..|events|] == events;
  }

  lemma {:induction false} LostForever(paths: Paths, events: seq<Event>, after: seq<Event>, o: nat)
    requires Reflexive(paths) && Lost(Run(paths, INITIAL, events), o)
    ensures Lost(Run(paths, INITIAL, events + after), o)
    decreases |after|
  {
    if after == [] {
      assert events + after == events;
    } else {
      var earlier, last := after[..|after| - 1], after[|after| - 1];
      LostForever(paths, events, earlier, o);
      RunKept(paths, events + earlier);
      RunMore(paths, events + earlier, last);
      hide Run, Step, Lost, Inv;
      LostStays(paths, Run(paths, INITIAL, events + earlier), last, o);
      assert events + after == events + earlier + [last];
    }
  }

  /** A spawn whose peer disconnected while it was in flight never registers a session. */
  lemma DisconnectedNeverRegisters(paths: Paths, before: seq<Event>, after: seq<Event>, o: nat)
    requires Reflexive(paths)
    requires o in Run(paths, INITIAL, before).opens && InFlight(Run(paths, INITIAL, before).opens[o])
    ensures var gone := PeerDisconnected(Run(paths, INITIAL, before).opens[o].peer);
      forall id :: id in Run(paths, INITIAL, before + [gone] + after).sessions ==>
        Run(paths, INITIAL, before + [gone] + after).sessions[id].opener != o
  {
    var gone := PeerDisconnected(Run(paths, INITIAL, before).opens[o].peer);
    RunRegistered(paths, before);
    RunKept(paths, before);
    RunMore(paths, before, gone);
    LostAtDisconnect(paths, Run(paths, INITIAL, before), o);
    LostForever(paths, before + [gone], after, o);
  }
}
