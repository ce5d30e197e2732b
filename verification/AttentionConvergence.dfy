/** When complete listings that arrive in different orders leave the same members. */
module AttentionConvergence {
  import opened Prelude
  import opened StableSort
  import opened AttentionOrder

  predicate Settled(order: Order) {
    forall k :: k in order.members ==> !order.members[k].awaitingBaseline
  }

  predicate CompleteAt(listing: Listing, at: int) {
    listing.complete && listing.observedAt == Some(at)
  }

  /** No member awaits a baseline, and every one was decided no earlier than `at`. */
  predicate Stamped(members: map<Key, Member>, at: int) {
    forall k :: k in members ==> StampedMember(members[k], at)
  }

  predicate StampedMember(m: Member, at: int) {
    !m.awaitingBaseline && m.observedAt.Some? && m.observedAt.value >= at
  }

  /** Everything in the order is as new as `at`: applying an older complete listing is idle. */
  predicate DecidedBy(order: Order, at: int) {
    && Stamped(order.members, at)
    && (forall k :: k in order.removed ==> order.removed[k] >= at)
    && order.listedAt.Some? && order.listedAt.value >= at
  }

  lemma {:induction false} PlaceObserved(order: Order, listing: Listing, threads: seq<Thread>, n: nat, at: int)
    requires Settled(order) && CompleteAt(listing, at) && n <= |threads|
    ensures Stamped(PlaceFirst(order, listing, threads, n).0, at)
  {
    if n > 0 {
      PlaceObserved(order, listing, threads, n - 1, at);
      var key := threads[n - 1].key;
      assert key in order.members ==> !order.members[key].awaitingBaseline;
    } else {
      forall k | k in Kept(order, listing) ensures StampedMember(Kept(order, listing)[k], at) {
        assert !order.members[k].awaitingBaseline;
      }
    }
  }

  lemma CompleteDecides(order: Order, listing: Listing, at: int)
    requires Settled(order) && CompleteAt(listing, at)
    ensures DecidedBy(Reconcile(order, listing), at)
  {
    var threads := Candidates(order, listing);
    PlaceObserved(order, listing, threads, |threads|, at);
  }

  lemma {:induction false} NothingEligible(order: Order, listing: Listing, threads: seq<Thread>)
    requires forall t :: t in threads ==> !Eligible(order, listing, t)
    ensures Filter(order, listing, threads) == []
    decreases threads
  {
    if threads != [] {
      NothingEligible(order, listing, threads[..|threads| - 1]);
    }
  }

  /** A listing older than everything in the order changes nothing, ranks and counters included. */
  lemma OlderListingIsIdle(order: Order, listing: Listing, at: int)
    requires DecidedBy(order, at) && listing.observedAt.Some? && listing.observedAt.value < at
    ensures Reconcile(order, listing) == order
  {
    NothingEligible(order, listing, listing.threads);
    assert Dropped(order, listing) == {};
    assert Kept(order, listing) == order.members;
    assert StillRemoved(order, listing) == order.removed;
  }

  /** The stale listing of the pair leaves the order exactly as the newer one made it. */
  lemma StaleAfterFresh(order: Order, older: Listing, newer: Listing, t1: int, t2: int)
    requires Settled(order) && older.observedAt == Some(t1) && CompleteAt(newer, t2) && t1 < t2
    ensures Reconcile(Reconcile(order, newer), older) == Reconcile(order, newer)
  {
    CompleteDecides(order, newer, t2);
    OlderListingIsIdle(Reconcile(order, newer), older, t2);
  }

  /** No complete listing newer than `at` has been applied. */
  predicate ListedUpTo(order: Order, at: int) {
    order.listedAt.Some? ==> order.listedAt.value <= at
  }

  // ---- one key through one listing ----

  function LastOf(threads: seq<Thread>, key: Key): Option<Thread> {
    if threads == [] then None
    else if threads[|threads| - 1].key == key then Some(threads[|threads| - 1])
    else LastOf(threads[..|threads| - 1], key)
  }

  lemma {:induction false} LastOfFacts(threads: seq<Thread>, key: Key) returns (i: nat)
    ensures LastOf(threads, key).None? ==> forall j :: 0 <= j < |threads| ==> threads[j].key != key
    ensures LastOf(threads, key).Some? ==>
      && i < |threads| && threads[i] == LastOf(threads, key).value && threads[i].key == key
      && forall j :: i < j < |threads| ==> threads[j].key != key
    decreases |threads|
  {
    if threads == [] || threads[|threads| - 1].key == key {
      i := if threads == [] then 0 else |threads| - 1;
    } else {
      i := LastOfFacts(threads[..|threads| - 1], key);
    }
  }

  /** The thread a listing places a key by: the last of its candidates. */
  function Verdict(order: Order, listing: Listing, key: Key): Option<Thread> {
    LastOf(Candidates(order, listing), key)
  }

  /** What becomes of one key: placed by its verdict, or kept as it was, or not a member. */
  lemma AfterListing(order: Order, listing: Listing, key: Key)
    ensures var verdict, members := Verdict(order, listing, key), Reconcile(order, listing).members;
      && (verdict.Some? <==> Listed(order, listing, key))
      && (verdict.Some? ==>
            && verdict.value in listing.threads && verdict.value.key == key && Eligible(order, listing, verdict.value)
            && key in members && PlacedFrom(Get(order, key), verdict.value, listing, members[key]))
      && (verdict.None? ==>
            && (key in members <==> key in Kept(order, listing) && key !in Dropped(order, listing))
            && (key in members ==> members[key] == order.members[key]))
  {
    var threads := Candidates(order, listing);
    CandidatesAreEligible(order, listing);
    if Listed(order, listing, key) {
      var t :| t in listing.threads && t.key == key && Eligible(order, listing, t);
      var j :| 0 <= j < |threads| && threads[j] == t;
      assert threads[j].key == key;
    }
    var i := LastOfFacts(threads, key);
    if Verdict(order, listing, key).Some? {
      assert threads[i] in threads;
      PlacedAt(order, listing, threads, i, |threads|);
    } else {
      PlaceLeaves(order, listing, threads, |threads|, key);
    }
  }

  ghost predicate PlacedFrom(m: Option<Member>, t: Thread, listing: Listing, placed: Member) {
    exists nextRank :: placed == Placed(m, t, listing, nextRank)
  }

  /** Nothing older than `at` has a say over the key. */
  predicate DecidedKey(order: Order, key: Key, at: int) {
    if key in order.members then StampedMember(order.members[key], at)
    else (key in order.removed && order.removed[key] >= at) || (order.listedAt.Some? && order.listedAt.value >= at)
  }

  predicate Awaiting(order: Order, key: Key) {
    key in order.members && order.members[key].awaitingBaseline
  }

  lemma ListingDecidesKey(order: Order, listing: Listing, key: Key, at: int)
    requires CompleteAt(listing, at) && !Awaiting(order, key)
    ensures DecidedKey(Reconcile(order, listing), key, at)
  {
    AfterListing(order, listing, key);
  }

  lemma OlderLeavesKey(order: Order, listing: Listing, key: Key, t1: int, t2: int)
    requires Inv(order) && DecidedKey(order, key, t2) && CompleteAt(listing, t1) && t1 < t2
    ensures key in Reconcile(order, listing).members <==> key in order.members
  {
    AfterListing(order, listing, key);
    assert !Decides(order, listing, key);
  }

  /** An older listing does not change whether the newest one admits a key that awaits nothing. */
  lemma OlderFirstKey(order: Order, older: Listing, newer: Listing, t1: int, t2: int, key: Key)
    requires Inv(order) && ListedUpTo(order, t2) && !Awaiting(order, key)
    requires CompleteAt(older, t1) && CompleteAt(newer, t2) && t1 < t2
    ensures key in Reconcile(Reconcile(order, older), newer).members <==> key in Reconcile(order, newer).members
  {
    var mid := Reconcile(order, older);
    ReconcileKept(order, older);
    AfterListing(order, older, key);
    AfterListing(order, newer, key);
    AfterListing(mid, newer, key);
    hide Inv, Verdict;
    SameDecision(order, older, newer, t1, t2, key);
  }

  lemma SameDecision(order: Order, older: Listing, newer: Listing, t1: int, t2: int, key: Key)
    requires Inv(order) && ListedUpTo(order, t2) && !Awaiting(order, key)
    requires CompleteAt(older, t1) && CompleteAt(newer, t2) && t1 < t2
    ensures Decides(Reconcile(order, older), newer, key) <==> Decides(order, newer, key)
    ensures key in Kept(Reconcile(order, older), newer) <==> key in Kept(order, newer)
  {
    hide PlaceFirst, Candidates, Filter;
    AfterListing(order, older, key);
    if key in order.members && Follows(order.members[key].observedAt, newer) {
      NewerMemberUntouched(order, older, key);
    }
    if key in order.removed && Follows(Some(order.removed[key]), newer) {
      NewerRemovalUntouched(order, older, key);
    }
  }

  // ---- a key that awaits its baseline ----

  /** The listing agrees with the boundary, and so settles the member. */
  predicate Settles(order: Order, listing: Listing, key: Key)
    requires key in order.members
  {
    var verdict := Verdict(order, listing, key);
    verdict.Some? && verdict.value.statusActive == order.members[key].active
  }

  predicate TakesOut(order: Order, listing: Listing, key: Key) {
    key in Dropped(order, listing) && Verdict(order, listing, key).None?
  }

  /** The same boundary is still waiting. */
  predicate StillAwaiting(m: Member, after: Member) {
    after.awaitingBaseline && after.active == m.active && after.observedAt == m.observedAt
  }

  /** A listing settles a waiting member, takes it out, or leaves it waiting. */
  lemma AwaitingStep(order: Order, listing: Listing, key: Key, at: int)
    requires Inv(order) && Awaiting(order, key) && CompleteAt(listing, at)
    ensures var m, after := order.members[key], Reconcile(order, listing);
      && (Settles(order, listing, key) ==> key in after.members && DecidedKey(after, key, at))
      && (TakesOut(order, listing, key) ==> key !in after.members && DecidedKey(after, key, at))
      && (!Settles(order, listing, key) && !TakesOut(order, listing, key) ==>
            key in after.members && StillAwaiting(m, after.members[key]))
      && (key in after.members && Follows(m.observedAt, listing) ==> after.members[key] == m)
      && !(Settles(order, listing, key) && TakesOut(order, listing, key))
  {
    AfterListing(order, listing, key);
  }

  /** What a listing does to a waiting member depends on nothing but that boundary. */
  lemma SameSay(order: Order, mid: Order, listing: Listing, key: Key)
    requires Inv(order) && Inv(mid) && Awaiting(order, key) && key in mid.members
    requires StillAwaiting(order.members[key], mid.members[key])
    ensures TakesOut(mid, listing, key) <==> TakesOut(order, listing, key)
  {
    AfterListing(order, listing, key);
    AfterListing(mid, listing, key);
    hide Verdict;
    assert forall t: Thread :: t.key == key ==> (Drops(mid, listing, t) <==> Drops(order, listing, t));
    assert forall t: Thread :: t.key == key ==> (Eligible(mid, listing, t) <==> Eligible(order, listing, t));
  }

  /** The boundary of the key was seen before both listings began. The newer one leaves it waiting:
    * either it disagrees with the boundary, and the older one takes the key out; or it does not
    * list the key, and the older one settles it. */
  predicate Contested(order: Order, older: Listing, newer: Listing, key: Key) {
    && Awaiting(order, key) && !Follows(order.members[key].observedAt, older)
    && !Settles(order, newer, key) && !TakesOut(order, newer, key)
    && (if Verdict(order, newer, key).Some? then TakesOut(order, older, key) else Settles(order, older, key))
  }

  /** The newer listing comes last. */
  lemma MemberOlderFirst(order: Order, older: Listing, newer: Listing, t1: int, t2: int, key: Key)
    requires Inv(order) && ListedUpTo(order, t2) && Awaiting(order, key)
    requires !Follows(order.members[key].observedAt, older)
    requires CompleteAt(older, t1) && CompleteAt(newer, t2) && t1 < t2
    ensures key in Reconcile(Reconcile(order, older), newer).members <==>
      if Settles(order, older, key) || TakesOut(order, older, key) then Verdict(order, newer, key).Some?
      else !TakesOut(order, newer, key)
  {
    var mid := Reconcile(order, older);
    ReconcileKept(order, older);
    AwaitingStep(order, older, key, t1);
    if Settles(order, older, key) || TakesOut(order, older, key) {
      OnceDecided(order, older, newer, t1, t2, key);
    } else {
      SameSay(order, mid, newer, key);
      AwaitingStep(mid, newer, key, t2);
    }
  }

  lemma OnceDecided(order: Order, older: Listing, newer: Listing, t1: int, t2: int, key: Key)
    requires Inv(order) && ListedUpTo(order, t2) && Awaiting(order, key)
    requires !Follows(order.members[key].observedAt, older)
    requires CompleteAt(older, t1) && CompleteAt(newer, t2) && t1 < t2
    requires Settles(order, older, key) || TakesOut(order, older, key)
    ensures key in Reconcile(Reconcile(order, older), newer).members <==> Verdict(order, newer, key).Some?
  {
    var mid := Reconcile(order, older);
    ReconcileKept(order, older);
    AfterListing(order, older, key);
    AfterListing(order, newer, key);
    AfterListing(mid, newer, key);
    hide Inv, Verdict;
    assert Decides(order, newer, key) && Decides(mid, newer, key);
    assert key !in Kept(mid, newer);
    assert forall t: Thread :: t.key == key ==> (Eligible(mid, newer, t) <==> Eligible(order, newer, t));
  }

  /** The older listing comes last. */
  lemma MemberNewerFirst(order: Order, older: Listing, newer: Listing, t1: int, t2: int, key: Key)
    requires Inv(order) && Awaiting(order, key)
    requires CompleteAt(older, t1) && CompleteAt(newer, t2) && t1 < t2
    ensures key in Reconcile(Reconcile(order, newer), older).members <==>
      Settles(order, newer, key) || (!TakesOut(order, newer, key) && !TakesOut(order, older, key))
  {
    var mid := Reconcile(order, newer);
    ReconcileKept(order, newer);
    AwaitingStep(order, newer, key, t2);
    if Settles(order, newer, key) || TakesOut(order, newer, key) {
      OlderLeavesKey(mid, older, key, t1, t2);
    } else {
      SameSay(order, mid, older, key);
      AwaitingStep(mid, older, key, t1);
    }
  }

  /** A boundary seen after the older listing began is out of that listing's reach. */
  lemma SeenBetween(order: Order, older: Listing, newer: Listing, t1: int, t2: int, key: Key)
    requires Inv(order) && Awaiting(order, key) && Follows(order.members[key].observedAt, older)
    requires CompleteAt(older, t1) && CompleteAt(newer, t2) && t1 < t2
    ensures key in Reconcile(Reconcile(order, older), newer).members <==>
      key in Reconcile(Reconcile(order, newer), older).members
  {
    var mid := Reconcile(order, older);
    ReconcileKept(order, older);
    NewerMemberUntouched(order, older, key);
    SameSay(order, mid, newer, key);
    AwaitingStep(mid, newer, key, t2);
    MemberNewerFirst(order, older, newer, t1, t2, key);
    AfterListing(order, older, key);
    assert !TakesOut(order, older, key);
    AwaitingStep(order, newer, key, t2);
  }

  /** The arrival order of two complete listings matters to a key exactly when it is contested. */
  lemma ArrivalOrderMatters(order: Order, older: Listing, newer: Listing, t1: int, t2: int, key: Key)
    requires Inv(order) && ListedUpTo(order, t2)
    requires CompleteAt(older, t1) && CompleteAt(newer, t2) && t1 < t2
    ensures (key in Reconcile(Reconcile(order, older), newer).members <==>
             key in Reconcile(Reconcile(order, newer), older).members) <==> !Contested(order, older, newer, key)
  {
    if !Awaiting(order, key) {
      OlderFirstKey(order, older, newer, t1, t2, key);
      ReconcileKept(order, newer);
      ListingDecidesKey(order, newer, key, t2);
      OlderLeavesKey(Reconcile(order, newer), older, key, t1, t2);
    } else if Follows(order.members[key].observedAt, older) {
      SeenBetween(order, older, newer, t1, t2, key);
    } else {
      MemberOlderFirst(order, older, newer, t1, t2, key);
      MemberNewerFirst(order, older, newer, t1, t2, key);
    }
  }

  /** Two complete listings give the same members in either order of arrival, exactly when no key
    * is contested between them. */
  lemma ConvergesExactly(order: Order, older: Listing, newer: Listing, t1: int, t2: int)
    requires Inv(order) && ListedUpTo(order, t2)
    requires CompleteAt(older, t1) && CompleteAt(newer, t2) && t1 < t2
    ensures
      Reconcile(Reconcile(order, older), newer).members.Keys == Reconcile(Reconcile(order, newer), older).members.Keys
      <==> forall key :: !Contested(order, older, newer, key)
  {
    hide Reconcile, Contested;
    forall key
      ensures (key in Reconcile(Reconcile(order, older), newer).members <==>
               key in Reconcile(Reconcile(order, newer), older).members) <==> !Contested(order, older, newer, key)
    {
      ArrivalOrderMatters(order, older, newer, t1, t2, key);
    }
  }

  /** Members that await no baseline, or only one seen since the older listing began, contest nothing. */
  lemma EitherOrder(order: Order, older: Listing, newer: Listing, t1: int, t2: int)
    requires Inv(order) && ListedUpTo(order, t2)
    requires CompleteAt(older, t1) && CompleteAt(newer, t2) && t1 < t2
    requires forall key :: Awaiting(order, key) ==> Follows(order.members[key].observedAt, older)
    ensures
      Reconcile(Reconcile(order, older), newer).members.Keys == Reconcile(Reconcile(order, newer), older).members.Keys
  {
    ConvergesExactly(order, older, newer, t1, t2);
  }

  // ---- contested keys are reachable ----

  /** A thread that is a member only while its turn is active. */
  function Turn(key: Key, active: bool): Thread {
    Thread(key, None, false, active, false, false, false)
  }

  function Sole(t: Thread, at: int, collate: (Key, Key) -> int): Listing {
    Listing([t], true, Some(at), false, collate)
  }

  lemma SoleVerdict(order: Order, t: Thread, at: int, collate: (Key, Key) -> int)
    ensures Verdict(order, Sole(t, at, collate), t.key)
         == if Eligible(order, Sole(t, at, collate), t) then Some(t) else None
    ensures Dropped(order, Sole(t, at, collate)) == if Drops(order, Sole(t, at, collate), t) then {t.key} else {}
  {
    var listing := Sole(t, at, collate);
    assert [t][..0] == [];
    assert Filter(order, listing, [t][..0]) == [] && Sort([t][..0], Compare(listing)) == [];
    if Eligible(order, listing, t) {
      assert Filter(order, listing, [t]) == [t];
      assert Candidates(order, listing) == [t];
      assert LastOf([t], t.key) == Some(t);
    } else {
      assert Candidates(order, listing) == [];
    }
  }

  /** After one boundary from the empty order: a turn starts at 1, a listing of 2 shows it running, and
    * one of 3 shows it done. Taken in that order the thread is out, in the other order it stays. */
  lemma StartedTurnDiverges(key: Key, turn: string, collate: (Key, Key) -> int)
    ensures var order := Run(EMPTY, [Boundary(key, true, Some(turn), false, Some(1))]);
      var running, done := Sole(Turn(key, true), 2, collate), Sole(Turn(key, false), 3, collate);
      && key !in Reconcile(Reconcile(order, running), done).members
      && key in Reconcile(Reconcile(order, done), running).members
  {
    var order := Run(EMPTY, [Boundary(key, true, Some(turn), false, Some(1))]);
    FirstBoundary(Boundary(key, true, Some(turn), false, Some(1)));
    var running, done := Sole(Turn(key, true), 2, collate), Sole(Turn(key, false), 3, collate);
    SoleVerdict(order, Turn(key, true), 2, collate);
    SoleVerdict(order, Turn(key, false), 3, collate);
    hide Reconcile, Verdict, Dropped;
    MemberOlderFirst(order, running, done, 2, 3, key);
    MemberNewerFirst(order, running, done, 2, 3, key);
  }

  /** The other family: a turn ends at 1, a listing of 2 shows the thread idle, and one of 3 shows it
    * running again. Taken in that order the thread is in, in the other order the older listing takes
    * it out. */
  lemma EndedTurnDiverges(key: Key, turn: string, collate: (Key, Key) -> int)
    ensures var order := Run(EMPTY, [Boundary(key, false, Some(turn), false, Some(1))]);
      var idle, again := Sole(Turn(key, false), 2, collate), Sole(Turn(key, true), 3, collate);
      && key in Reconcile(Reconcile(order, idle), again).members
      && key !in Reconcile(Reconcile(order, again), idle).members
  {
    var order := Run(EMPTY, [Boundary(key, false, Some(turn), false, Some(1))]);
    FirstBoundary(Boundary(key, false, Some(turn), false, Some(1)));
    var idle, again := Sole(Turn(key, false), 2, collate), Sole(Turn(key, true), 3, collate);
    SoleVerdict(order, Turn(key, false), 2, collate);
    SoleVerdict(order, Turn(key, true), 3, collate);
    hide Reconcile, Verdict, Dropped;
    MemberOlderFirst(order, idle, again, 2, 3, key);
    MemberNewerFirst(order, idle, again, 2, 3, key);
  }

  lemma FirstBoundary(ev: Event)
    requires ev.Boundary?
    ensures var order := Run(EMPTY, [ev]);
      && Inv(order) && order.listedAt.None? && Awaiting(order, ev.key)
      && order.members[ev.key].active == ev.active && order.members[ev.key].observedAt == ev.observedAt
  {
    assert [ev][..0] == [];
    assert Run(EMPTY, [ev][..0]) == EMPTY;
    assert Run(EMPTY, [ev]) == Apply(EMPTY, ev);
    ObserveKept(EMPTY, ev.key, ev.active, ev.turn, ev.promoteOnTurnEnd, ev.observedAt);
  }

  // ---- many listings ----

  /** The order after the first `n` listings have arrived. */
  function Replay(order: Order, listings: seq<Listing>, n: nat): Order
    requires n <= |listings|
  {
    if n == 0 then order else Reconcile(Replay(order, listings, n - 1), listings[n - 1])
  }

  /** All of the listings are complete, and all but the one at `newest` began before `at`. */
  predicate NewestAt(listings: seq<Listing>, newest: nat, at: int) {
    && newest < |listings| && CompleteAt(listings[newest], at)
    && forall i :: 0 <= i < |listings| ==>
      listings[i].complete && listings[i].observedAt.Some? && (i != newest ==> listings[i].observedAt.value < at)
  }

  lemma {:induction false} BeforeNewest(order: Order, listings: seq<Listing>, newest: nat, at: int, n: nat)
    requires Inv(order) && Settled(order) && ListedUpTo(order, at) && NewestAt(listings, newest, at) && n <= newest
    ensures var mid := Replay(order, listings, n);
      && Inv(mid) && Settled(mid) && ListedUpTo(mid, at)
      && Reconcile(mid, listings[newest]).members.Keys == Reconcile(order, listings[newest]).members.Keys
  {
    hide Reconcile, Inv, Settled, ListedUpTo;
    if n > 0 {
      BeforeNewest(order, listings, newest, at, n - 1);
      OneMoreBefore(Replay(order, listings, n - 1), listings[n - 1], listings[newest],
                    listings[n - 1].observedAt.value, at);
    }
  }

  lemma OneMoreBefore(order: Order, older: Listing, newer: Listing, t1: int, t2: int)
    requires Inv(order) && Settled(order) && ListedUpTo(order, t2)
    requires CompleteAt(older, t1) && CompleteAt(newer, t2) && t1 < t2
    ensures var mid := Reconcile(order, older);
      && Inv(mid) && Settled(mid) && ListedUpTo(mid, t2)
      && Reconcile(mid, newer).members.Keys == Reconcile(order, newer).members.Keys
  {
    ReconcileKept(order, older);
    CompleteDecides(order, older, t1);
    forall key
      ensures key in Reconcile(Reconcile(order, older), newer).members <==> key in Reconcile(order, newer).members
    {
      OlderFirstKey(order, older, newer, t1, t2, key);
    }
  }

  lemma IdleStep(order: Order, listings: seq<Listing>, n: nat, at: int)
    requires 0 < n <= |listings| && DecidedBy(Replay(order, listings, n - 1), at)
    requires listings[n - 1].observedAt.Some? && listings[n - 1].observedAt.value < at
    ensures Replay(order, listings, n) == Replay(order, listings, n - 1)
  {
    OlderListingIsIdle(Replay(order, listings, n - 1), listings[n - 1], at);
  }

  lemma {:induction false} AfterNewest(order: Order, listings: seq<Listing>, newest: nat, at: int, n: nat)
    requires NewestAt(listings, newest, at) && newest < n <= |listings|
      && DecidedBy(Replay(order, listings, newest + 1), at)
    ensures Replay(order, listings, n) == Replay(order, listings, newest + 1)
  {
    hide Reconcile, DecidedBy;
    if n > newest + 1 {
      AfterNewest(order, listings, newest, at, n - 1);
      IdleStep(order, listings, n, at);
    }
  }

  /** However many complete listings arrive, and in whatever order, the newest one decides who is
    * a member, and those that arrive after it change nothing at all. */
  lemma NewestListingDecides(order: Order, listings: seq<Listing>, newest: nat, at: int)
    requires Inv(order) && Settled(order) && ListedUpTo(order, at) && NewestAt(listings, newest, at)
    ensures Replay(order, listings, |listings|).members.Keys == Reconcile(order, listings[newest]).members.Keys
    ensures Replay(order, listings, |listings|) == Replay(order, listings, newest + 1)
  {
    BeforeNewest(order, listings, newest, at, newest);
    CompleteDecides(Replay(order, listings, newest), listings[newest], at);
    AfterNewest(order, listings, newest, at, |listings|);
  }
}
