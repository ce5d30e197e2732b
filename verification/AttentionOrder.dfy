/** The Attention order reducer (navigation-attention-order.ts): turn boundaries, removals and
  * listings arrive in any order, each stamped with an observation value. */
module AttentionOrder {
  import opened Prelude
  import opened StableSort

  type Key = string

  datatype Member = Member(active: bool, rank: int, updatedAt: int,
                           eventTurnId: Option<string>, observedTurnIds: Option<seq<string>>,
                           eventTracked: bool, awaitingBaseline: bool, observedAt: Option<int>)

  datatype Order = Order(members: map<Key, Member>, nextRank: int, removed: map<Key, int>, listedAt: Option<int>)

  datatype Thread = Thread(key: Key, updatedAt: Option<int>, nativeSubAgent: bool, statusActive: bool,
                           activeSubAgent: bool, backgroundTasks: bool, inInbox: bool)

  /** `collate` is the locale comparison of identities. */
  datatype Listing = Listing(threads: seq<Thread>, complete: bool, observedAt: Option<int>,
                             promoteOnTurnEnd: bool, collate: (Key, Key) -> int)

  /** What a first reconcile starts from. */
  const EMPTY := Order(map[], 1, map[], None)

  function Get(order: Order, key: Key): Option<Member> {
    if key in order.members then Some(order.members[key]) else None
  }

  /** A turn id that is present and not empty. */
  predicate Given(turn: Option<string>) {
    turn.Some? && turn.value != ""
  }

  // ---- boundaries ----

  function LastTurn(m: Option<Member>): Option<string> {
    if m.Some? then m.value.eventTurnId else None
  }

  function SeenTurns(m: Option<Member>): seq<string> {
    if m.None? then []
    else m.value.observedTurnIds.GetOr(if Given(m.value.eventTurnId) then [m.value.eventTurnId.value] else [])
  }

  /** A replayed boundary, one that changes nothing, or the end of an older turn. */
  predicate Ignored(m: Option<Member>, active: bool, turn: Option<string>) {
    || (Given(turn) && turn != LastTurn(m) && turn.value in SeenTurns(m))
    || (m.Some? && m.value.active == active && (!Given(turn) || LastTurn(m) == turn))
    || (!active && m.Some? && m.value.active && Given(LastTurn(m)) && Given(turn) && LastTurn(m) != turn)
  }

  predicate Moves(m: Option<Member>, active: bool, turn: Option<string>, promoteOnTurnEnd: bool) {
    var newTurn := Given(turn) && LastTurn(m) != turn;
    m.None? || (if active then !m.value.active || (newTurn && Given(LastTurn(m)))
                else (!m.value.active && newTurn) || promoteOnTurnEnd)
  }

  function Observe(order: Order, key: Key, active: bool, turn: Option<string>,
                   promoteOnTurnEnd: bool, observedAt: Option<int>): Order
  {
    var m := Get(order, key);
    if Ignored(m, active, turn) then order
    else
      var moves := Moves(m, active, turn, promoteOnTurnEnd);
      var seen := SeenTurns(m);
      var member := Member(active, if moves then order.nextRank else m.value.rank,
                           if m.Some? then m.value.updatedAt else 0,
                           if active || turn.Some? then turn else LastTurn(m),
                           Some(if Given(turn) && turn.value !in seen then seen + [turn.value] else seen),
                           true, true, observedAt);
      Order(order.members[key := member], order.nextRank + (if moves then 1 else 0),
            order.removed - {key}, order.listedAt)
  }

  function Remove(order: Order, key: Key, observedAt: int): Order {
    order.(members := order.members - {key}, removed := order.removed[key := observedAt])
  }

  // ---- listings ----

  predicate Follows(at: Option<int>, listing: Listing) {
    at.Some? && listing.observedAt.Some? && at.value > listing.observedAt.value
  }

  predicate Live(t: Thread) {
    t.statusActive || t.activeSubAgent || t.backgroundTasks
  }

  /** Members a listing has no say over, or that await agreement with a boundary. */
  predicate Carried(m: Member, listing: Listing) {
    m.awaitingBaseline || Follows(m.observedAt, listing)
  }

  function Kept(order: Order, listing: Listing): map<Key, Member> {
    map k | k in order.members && (!listing.complete || Carried(order.members[k], listing)) :: order.members[k]
  }

  function StillRemoved(order: Order, listing: Listing): map<Key, int> {
    map k | k in order.removed && Follows(Some(order.removed[k]), listing) :: order.removed[k]
  }

  predicate Decides(order: Order, listing: Listing, key: Key) {
    && !(key in order.members && Follows(order.members[key].observedAt, listing))
    && key !in StillRemoved(order, listing)
    && (key in order.members || !Follows(order.listedAt, listing))
  }

  predicate Drops(order: Order, listing: Listing, t: Thread) {
    && Decides(order, listing, t.key)
    && (t.nativeSubAgent
        || (!Live(t) && !t.inInbox
            && !(t.key in order.members && order.members[t.key].awaitingBaseline && order.members[t.key].active)))
  }

  predicate Eligible(order: Order, listing: Listing, t: Thread) {
    !t.nativeSubAgent && Decides(order, listing, t.key) && (Live(t) || t.inInbox)
  }

  function Dropped(order: Order, listing: Listing): set<Key> {
    set t | t in listing.threads && Drops(order, listing, t) :: t.key
  }

  function Filter(order: Order, listing: Listing, threads: seq<Thread>): seq<Thread> {
    if threads == [] then []
    else
      var front := Filter(order, listing, threads[..|threads| - 1]);
      var last := threads[|threads| - 1];
      if Eligible(order, listing, last) then front + [last] else front
  }

  /** Oldest first; equal times by identity, backwards. */
  function Compare(listing: Listing): (Thread, Thread) -> int {
    (a: Thread, b: Thread) =>
      var d := a.updatedAt.GetOr(0) - b.updatedAt.GetOr(0);
      if d != 0 then d else listing.collate(b.key, a.key)
  }

  function Candidates(order: Order, listing: Listing): seq<Thread> {
    Sort(Filter(order, listing, listing.threads), Compare(listing))
  }

  predicate TakesRank(m: Option<Member>, t: Thread, promoteOnTurnEnd: bool) {
    m.None? ||
    var active := if m.value.awaitingBaseline then m.value.active else t.statusActive;
    var started := active && !m.value.active;
    var finished := !active && (m.value.active || (!m.value.eventTracked && t.updatedAt.GetOr(0) > m.value.updatedAt));
    started || (finished && promoteOnTurnEnd)
  }

  function Placed(m: Option<Member>, t: Thread, listing: Listing, nextRank: int): Member {
    var active := if m.Some? && m.value.awaitingBaseline then m.value.active else t.statusActive;
    var awaiting := m.Some? && m.value.awaitingBaseline && t.statusActive != active;
    Member(active, if TakesRank(m, t, listing.promoteOnTurnEnd) then nextRank else m.value.rank, t.updatedAt.GetOr(0),
           if m.Some? && Given(m.value.eventTurnId) then m.value.eventTurnId else None,
           if m.Some? then m.value.observedTurnIds else None,
           m.Some? && m.value.eventTracked, awaiting,
           if awaiting then m.value.observedAt
           else if listing.observedAt.Some? then listing.observedAt
           else if m.Some? then m.value.observedAt else None)
  }

  /** The members and the rank counter after placing the first `n` candidates. */
  function PlaceFirst(order: Order, listing: Listing, threads: seq<Thread>, n: nat): (map<Key, Member>, int)
    requires n <= |threads|
  {
    if n == 0 then (Kept(order, listing) - Dropped(order, listing), order.nextRank)
    else
      var (members, nextRank) := PlaceFirst(order, listing, threads, n - 1);
      var t := threads[n - 1];
      var m := Get(order, t.key);
      (members[t.key := Placed(m, t, listing, nextRank)],
       if TakesRank(m, t, listing.promoteOnTurnEnd) then nextRank + 1 else nextRank)
  }

  function Reconcile(order: Order, listing: Listing): Order {
    var threads := Candidates(order, listing);
    var (members, nextRank) := PlaceFirst(order, listing, threads, |threads|);
    var gone :=
      if listing.observedAt.None? then map[]
      else map k | k in order.members && k !in members :: listing.observedAt.value;
    Order(members, nextRank, StillRemoved(order, listing) + gone,
          if listing.complete && listing.observedAt.Some? && !Follows(order.listedAt, listing) then listing.observedAt
            else order.listedAt)
  }

  // ---- the invariant over every run ----

  predicate RanksDistinct(members: map<Key, Member>) {
    forall a, b :: a in members && b in members && members[a].rank == members[b].rank ==> a == b
  }

  predicate RanksBelow(members: map<Key, Member>, bound: int) {
    forall k :: k in members ==> members[k].rank < bound
  }

  predicate Inv(order: Order) {
    && RanksDistinct(order.members)
    && RanksBelow(order.members, order.nextRank)
    && order.members.Keys !! order.removed.Keys
  }

  lemma ObserveKept(order: Order, key: Key, active: bool, turn: Option<string>, promote: bool, observedAt: Option<int>)
    requires Inv(order)
    ensures Inv(Observe(order, key, active, turn, promote, observedAt))
    ensures order.nextRank <= Observe(order, key, active, turn, promote, observedAt).nextRank
  {
  }

  lemma RemoveKept(order: Order, key: Key, observedAt: int)
    requires Inv(order)
    ensures Inv(Remove(order, key, observedAt)) && key !in Remove(order, key, observedAt).members
  {
  }

  /** Ranks are the previous ones or fresh: no two members ever share one. */
  predicate RanksFrom(order: Order, members: map<Key, Member>, nextRank: int) {
    && order.nextRank <= nextRank
    && RanksDistinct(members)
    && forall k :: k in members ==>
      || order.nextRank <= members[k].rank < nextRank
      || (k in order.members && members[k].rank == order.members[k].rank)
  }

  lemma {:induction false} PlaceKept(order: Order, listing: Listing, threads: seq<Thread>, n: nat)
    requires Inv(order) && n <= |threads|
    ensures RanksFrom(order, PlaceFirst(order, listing, threads, n).0, PlaceFirst(order, listing, threads, n).1)
  {
    if n > 0 {
      PlaceKept(order, listing, threads, n - 1);
    }
  }

  lemma {:induction false} PlaceKeys(order: Order, listing: Listing, threads: seq<Thread>, n: nat)
    requires n <= |threads|
    ensures forall k :: k in PlaceFirst(order, listing, threads, n).0 <==>
      (k in Kept(order, listing) && k !in Dropped(order, listing)) || exists i :: 0 <= i < n && threads[i].key == k
  {
    if n > 0 {
      PlaceKeys(order, listing, threads, n - 1);
    }
  }

  /** The candidates are the eligible threads of the listing, in another order. */
  lemma {:induction false} FilterIsEligible(order: Order, listing: Listing, threads: seq<Thread>)
    ensures forall t :: t in Filter(order, listing, threads) <==> t in threads && Eligible(order, listing, t)
    decreases threads
  {
    if threads != [] {
      var last := |threads| - 1;
      FilterIsEligible(order, listing, threads[..last]);
      assert threads == threads[..last] + [threads[last]];
    }
  }

  lemma CandidatesAreEligible(order: Order, listing: Listing)
    ensures forall t :: t in Candidates(order, listing) <==> t in listing.threads && Eligible(order, listing, t)
  {
    FilterIsEligible(order, listing, listing.threads);
    SortPermutes(Filter(order, listing, listing.threads), Compare(listing));
  }

  predicate Listed(order: Order, listing: Listing, key: Key) {
    exists t :: t in listing.threads && t.key == key && Eligible(order, listing, t)
  }

  /** Who is a member after a listing. */
  lemma Membership(order: Order, listing: Listing, key: Key)
    requires Inv(order)
    ensures key in Reconcile(order, listing).members <==>
      (key in Kept(order, listing) && key !in Dropped(order, listing)) || Listed(order, listing, key)
  {
    var threads := Candidates(order, listing);
    PlaceKeys(order, listing, threads, |threads|);
    CandidatesAreEligible(order, listing);
    if Listed(order, listing, key) {
      var t :| t in listing.threads && t.key == key && Eligible(order, listing, t);
      assert t in threads;
    }
  }

  lemma ReconcileKept(order: Order, listing: Listing)
    requires Inv(order)
    ensures Inv(Reconcile(order, listing)) && order.nextRank <= Reconcile(order, listing).nextRank
  {
    var threads := Candidates(order, listing);
    PlaceKept(order, listing, threads, |threads|);
    var after := Reconcile(order, listing);
    forall k | k in after.removed ensures k !in after.members {
      if k in StillRemoved(order, listing) {
        Membership(order, listing, k);
      }
    }
  }

  datatype Event =
    | Boundary(key: Key, active: bool, turn: Option<string>, promoteOnTurnEnd: bool, observedAt: Option<int>)
    | Removal(key: Key, at: int)
    | ListingRead(listing: Listing)

  function Apply(order: Order, ev: Event): Order {
    match ev
    case Boundary(key, active, turn, promote, observedAt) => Observe(order, key, active, turn, promote, observedAt)
    case Removal(key, at) => Remove(order, key, at)
    case ListingRead(listing) => Reconcile(order, listing)
  }

  function Run(order: Order, events: seq<Event>): Order
    decreases |events|
  {
    if events == [] then order else Apply(Run(order, events[..|events| - 1]), events[|events| - 1])
  }

  /** After any sequence of boundaries, removals and listings the ranks are pairwise distinct and
    * below the counter, no key is both member and removed, and the counter never went back. */
  lemma {:induction false} RunKept(events: seq<Event>, earlier: nat)
    requires earlier <= |events|
    ensures Inv(Run(EMPTY, events))
    ensures Run(EMPTY, events[..earlier]).nextRank <= Run(EMPTY, events).nextRank
    decreases |events|
  {
    if events != [] {
      var before := events[..|events| - 1];
      if earlier < |events| {
        RunKept(before, earlier);
        assert before[..earlier] == events[..earlier];
      } else {
        RunKept(before, 0);
        assert events[..earlier] == events;
      }
      var order := Run(EMPTY, before);
      match events[|events| - 1]
      case Boundary(key, active, turn, promote, observedAt) =>
        ObserveKept(order, key, active, turn, promote, observedAt);
      case Removal(key, at) => RemoveKept(order, key, at);
      case ListingRead(listing) => ReconcileKept(order, listing);
    }
  }

  // ---- boundaries ----

  /** A boundary that arrives twice changes nothing the second time. */
  lemma ReplayChangesNothing(order: Order, key: Key, active: bool, turn: Option<string>, promote: bool,
                             at: Option<int>, again: Option<int>)
    ensures var after := Observe(order, key, active, turn, promote, at);
      Observe(after, key, active, turn, promote, again) == after
  {
  }

  /** The end of an older turn cannot finish a newer live one. */
  lemma OldEndIsIgnored(order: Order, key: Key, turn: string, promote: bool, at: Option<int>)
    requires key in order.members && order.members[key].active && turn != ""
    requires Given(order.members[key].eventTurnId) && order.members[key].eventTurnId != Some(turn)
    ensures Observe(order, key, false, Some(turn), promote, at) == order
  {
  }

  /** Turn ids the member has had boundaries of. */
  predicate Remembers(order: Order, key: Key, turn: string) {
    turn in SeenTurns(Get(order, key))
  }

  lemma {:induction false} PlaceRemembers(order: Order, listing: Listing, threads: seq<Thread>, n: nat, key: Key)
    requires n <= |threads| && key in order.members && key in PlaceFirst(order, listing, threads, n).0
    requires order.members[key].observedTurnIds.Some?
    ensures PlaceFirst(order, listing, threads, n).0[key].observedTurnIds == order.members[key].observedTurnIds
  {
    if n > 0 && threads[n - 1].key != key {
      PlaceRemembers(order, listing, threads, n - 1, key);
    }
  }

  /** As long as a key stays a member, no event forgets a turn it had a boundary of. */
  lemma StepRemembers(order: Order, ev: Event, key: Key, turn: string)
    requires key in order.members && order.members[key].observedTurnIds.Some? && Remembers(order, key, turn)
    requires key in Apply(order, ev).members
    ensures Apply(order, ev).members[key].observedTurnIds.Some? && Remembers(Apply(order, ev), key, turn)
  {
    match ev
    case Boundary(k, active, t, promote, at) =>
    case Removal(k, at) =>
    case ListingRead(listing) =>
      PlaceRemembers(order, listing, Candidates(order, listing), |Candidates(order, listing)|, key);
  }

  lemma {:induction false} RunRemembers(order: Order, events: seq<Event>, key: Key, turn: string)
    requires key in order.members && order.members[key].observedTurnIds.Some? && Remembers(order, key, turn)
    requires forall n :: 0 <= n <= |events| ==> key in Run(order, events[..n]).members
    ensures key in Run(order, events).members && Run(order, events).members[key].observedTurnIds.Some?
    ensures Remembers(Run(order, events), key, turn)
    decreases |events|
  {
    assert events[..|events|] == events;
    if events != [] {
      var before := events[..|events| - 1];
      forall n | 0 <= n <= |before| ensures key in Run(order, before[..n]).members {
        assert before[..n] == events[..n];
      }
      RunRemembers(order, before, key, turn);
      StepRemembers(Run(order, before), events[|events| - 1], key, turn);
    }
  }

  /** A late replay of a turn's boundary, after any events through which its thread stayed a
    * member and had a newer turn, changes nothing. */
  lemma LateReplayIsIgnored(order: Order, key: Key, active: bool, turn: string, promote: bool, at: Option<int>,
                            events: seq<Event>, lateActive: bool, latePromote: bool, lateAt: Option<int>)
    requires turn != "" && !Ignored(Get(order, key), active, Some(turn))
    requires var first := Observe(order, key, active, Some(turn), promote, at);
      && (forall n :: 0 <= n <= |events| ==> key in Run(first, events[..n]).members)
      && LastTurn(Get(Run(first, events), key)) != Some(turn)
    ensures var after := Run(Observe(order, key, active, Some(turn), promote, at), events);
      Observe(after, key, lateActive, Some(turn), latePromote, lateAt) == after
  {
    RunRemembers(Observe(order, key, active, Some(turn), promote, at), events, key, turn);
  }

  // ---- ranks follow activity ----

  lemma {:induction false} CounterGrows(order: Order, listing: Listing, threads: seq<Thread>, i: nat, n: nat)
    requires i <= n <= |threads|
    ensures var from, to := PlaceFirst(order, listing, threads, i).1, PlaceFirst(order, listing, threads, n).1;
      && from <= to
      && (i < n && TakesRank(Get(order, threads[i].key), threads[i], listing.promoteOnTurnEnd) ==> from < to)
  {
    if i < n {
      CounterGrows(order, listing, threads, i, n - 1);
    }
  }

  lemma {:induction false} PlacedAt(order: Order, listing: Listing, threads: seq<Thread>, i: nat, n: nat)
    requires i < n <= |threads| && forall k :: i < k < n ==> threads[k].key != threads[i].key
    ensures var members := PlaceFirst(order, listing, threads, n).0; var t := threads[i];
      && t.key in members
      && members[t.key] == Placed(Get(order, t.key), t, listing, PlaceFirst(order, listing, threads, i).1)
  {
    if i < n - 1 {
      PlacedAt(order, listing, threads, i, n - 1);
    }
  }

  lemma CompareConsistent(listing: Listing)
    requires Consistent(listing.collate)
    ensures Consistent(Compare(listing))
  {
    var compare := Compare(listing);
    forall a, b ensures compare(a, b) <= 0 || compare(b, a) <= 0 {
      assert listing.collate(a.key, b.key) <= 0 || listing.collate(b.key, a.key) <= 0;
    }
    forall a, b, c | compare(a, b) <= 0 && compare(b, c) <= 0 ensures compare(a, c) <= 0 {
      assert listing.collate(c.key, b.key) <= 0 && listing.collate(b.key, a.key) <= 0 ==>
        listing.collate(c.key, a.key) <= 0;
    }
  }

  /** Of two listed threads that take new ranks, the one updated later gets the higher one; updated at the
    * same time, the one whose identity comes first. */
  lemma LaterActivityRanksHigher(order: Order, listing: Listing, a: Thread, b: Thread)
    requires Consistent(listing.collate)
    requires forall t :: t in listing.threads ==> (t.key == a.key ==> t == a) && (t.key == b.key ==> t == b)
    requires a in listing.threads && b in listing.threads && Eligible(order, listing, a) && Eligible(order, listing, b)
    requires a.updatedAt.GetOr(0) < b.updatedAt.GetOr(0)
      || (a.updatedAt.GetOr(0) == b.updatedAt.GetOr(0) && listing.collate(a.key, b.key) > 0)
    requires TakesRank(Get(order, a.key), a, listing.promoteOnTurnEnd)
      && TakesRank(Get(order, b.key), b, listing.promoteOnTurnEnd)
    ensures var members := Reconcile(order, listing).members;
      a.key in members && b.key in members && members[a.key].rank < members[b.key].rank
  {
    hide Eligible, TakesRank, PlaceFirst;
    var threads := Candidates(order, listing);
    CandidatesAreEligible(order, listing);
    CompareConsistent(listing);
    SortOrdered(Filter(order, listing, listing.threads), Compare(listing));
    var i := LastIndex(threads, a);
    var j := LastIndex(threads, b);
    assert Compare(listing)(threads[j], threads[i]) > 0;
    assert i < j;
    forall k | i < k < |threads| ensures threads[k].key != a.key { assert threads[k] in threads; }
    forall k | j < k < |threads| ensures threads[k].key != b.key { assert threads[k] in threads; }
    PlacedAt(order, listing, threads, i, |threads|);
    PlacedAt(order, listing, threads, j, |threads|);
    CounterGrows(order, listing, threads, i, j);
  }

  lemma LastIndex(threads: seq<Thread>, t: Thread) returns (i: nat)
    requires t in threads
    ensures i < |threads| && threads[i] == t && forall k :: i < k < |threads| ==> threads[k] != t
  {
    i := |threads| - 1;
    while threads[i] != t
      invariant i < |threads| && forall k :: i < k < |threads| ==> threads[k] != t
      decreases i
    {
      i := i - 1;
    }
  }

  // ---- newer facts are not undone ----

  lemma {:induction false} PlaceLeaves(order: Order, listing: Listing, threads: seq<Thread>, n: nat, key: Key)
    requires n <= |threads| && forall i :: 0 <= i < n ==> threads[i].key != key
    ensures var base := Kept(order, listing) - Dropped(order, listing);
      var members := PlaceFirst(order, listing, threads, n).0;
      (key in members <==> key in base) && (key in base ==> members[key] == base[key])
  {
    if n > 0 {
      PlaceLeaves(order, listing, threads, n - 1, key);
    }
  }

  /** A member observed after the listing began passes through it unchanged. */
  lemma NewerMemberUntouched(order: Order, listing: Listing, key: Key)
    requires key in order.members && Follows(order.members[key].observedAt, listing)
    ensures key in Reconcile(order, listing).members && Reconcile(order, listing).members[key] == order.members[key]
  {
    var threads := Candidates(order, listing);
    CandidatesAreEligible(order, listing);
    forall i | 0 <= i < |threads| ensures threads[i].key != key { assert threads[i] in threads; }
    PlaceLeaves(order, listing, threads, |threads|, key);
  }

  /** A removal observed after the listing began passes through it unchanged. */
  lemma NewerRemovalUntouched(order: Order, listing: Listing, key: Key)
    requires Inv(order) && key in order.removed && Follows(Some(order.removed[key]), listing)
    ensures key !in Reconcile(order, listing).members
    ensures key in Reconcile(order, listing).removed && Reconcile(order, listing).removed[key] == order.removed[key]
  {
    Membership(order, listing, key);
  }
}
