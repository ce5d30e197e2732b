/** What one boundary, one removal and one listing make of a thread, case by case. */
module AttentionTable {
  import opened Prelude
  import opened StableSort
  import opened AttentionOrder
  import opened AttentionConvergence

  // ---- boundaries ----

  /** The turn a thread is known to be in, or to have been in last. */
  function KnownTurn(order: Order, key: Key): Option<string> {
    if key in order.members then order.members[key].eventTurnId else None
  }

  /** The turns the thread had boundaries of. */
  function TurnsSeen(order: Order, key: Key): seq<string> {
    if key !in order.members then []
    else
      match order.members[key].observedTurnIds
      case Some(ids) => ids
      case None =>
        match order.members[key].eventTurnId
        case None => []
        case Some(id) => if id == "" then [] else [id]
  }

  /** The boundary is of a turn other than the last one. */
  predicate OtherTurn(order: Order, key: Key, turn: Option<string>) {
    turn.Some? && turn.value != "" && turn != KnownTurn(order, key)
  }

  predicate Replayed(order: Order, key: Key, turn: Option<string>) {
    OtherTurn(order, key, turn) && turn.value in TurnsSeen(order, key)
  }

  /** The last turn is known, and the boundary is not of it. */
  predicate Overtakes(order: Order, key: Key, turn: Option<string>) {
    OtherTurn(order, key, turn) && KnownTurn(order, key).Some? && KnownTurn(order, key).value != ""
  }

  /** When a boundary says something new. */
  predicate News(order: Order, key: Key, active: bool, turn: Option<string>) {
    key !in order.members ||
    var was := order.members[key].active;
    && !Replayed(order, key, turn)
    && (was != active || OtherTurn(order, key, turn))
    && !(was && !active && Overtakes(order, key, turn))
  }

  /** When a thread moves to the top: it is new, a turn starts in it while it is idle, a turn starts after
    * one that is known, a turn ends and that promotes, or a turn that was never seen running ends. */
  predicate Rises(order: Order, key: Key, active: bool, turn: Option<string>, promoteOnTurnEnd: bool) {
    key !in order.members ||
    var was := order.members[key].active;
    && !Replayed(order, key, turn)
    && (if active then !was || Overtakes(order, key, turn)
        else if was then promoteOnTurnEnd && !Overtakes(order, key, turn)
        else OtherTurn(order, key, turn))
  }

  predicate OnTop(after: Order, key: Key) {
    key in after.members && forall k :: k in after.members && k != key ==>
      after.members[k].rank < after.members[key].rank
  }

  lemma BoundaryRanks(order: Order, key: Key, active: bool, turn: Option<string>, promote: bool, at: Option<int>)
    requires Inv(order)
    ensures var after := Observe(order, key, active, turn, promote, at);
      && key in after.members
      && (Rises(order, key, active, turn, promote) ==>
            OnTop(after, key) && after.members[key].rank == order.nextRank && after.nextRank == order.nextRank + 1)
      && (!Rises(order, key, active, turn, promote) ==>
            key in order.members && after.members[key].rank == order.members[key].rank
              && after.nextRank == order.nextRank)
      && (forall k :: k != key ==> (k in after.members <==> k in order.members))
      && (forall k :: k != key && k in order.members ==> after.members[k] == order.members[k])
  {
  }

  /** The member a boundary leaves; one that says nothing new leaves everything as it was. */
  lemma BoundaryMember(order: Order, key: Key, active: bool, turn: Option<string>, promote: bool, at: Option<int>)
    requires Inv(order)
    ensures var after := Observe(order, key, active, turn, promote, at);
      if News(order, key, active, turn) then
        && key in after.members && key !in after.removed && after.listedAt == order.listedAt
        && var m := after.members[key];
        && m.active == active && m.eventTracked && m.awaitingBaseline && m.observedAt == at
        && m.updatedAt == (if key in order.members then order.members[key].updatedAt else 0)
        && m.eventTurnId == (if active || turn.Some? then turn else KnownTurn(order, key))
        && m.observedTurnIds.Some? && TurnsSeen(order, key) <= m.observedTurnIds.value
        && (forall id :: id in m.observedTurnIds.value <==>
              id in TurnsSeen(order, key) || (turn == Some(id) && id != ""))
        && (forall k :: k != key ==> (k in after.removed <==> k in order.removed))
      else after == order
  {
  }

  /** A removal takes out this member, remembers when, and nothing else. */
  lemma RemovalTakesOut(order: Order, key: Key, at: int)
    ensures var after := Remove(order, key, at);
      && after.members == order.members - {key} && after.removed == order.removed[key := at]
      && after.nextRank == order.nextRank && after.listedAt == order.listedAt
  {
  }

  // ---- listings ----

  predicate Later(at: Option<int>, listing: Listing) {
    at.Some? && listing.observedAt.Some? && at.value > listing.observedAt.value
  }

  /** Something about the thread is known that is newer than the listing. */
  predicate Overtaken(order: Order, listing: Listing, key: Key) {
    || (key in order.members && Later(order.members[key].observedAt, listing))
    || (key in order.removed && Later(Some(order.removed[key]), listing))
    || (key !in order.members && Later(order.listedAt, listing))
  }

  /** Threads that call for attention: live ones, and those in the inbox. */
  predicate Calls(t: Thread) {
    !t.nativeSubAgent && (t.statusActive || t.activeSubAgent || t.backgroundTasks || t.inInbox)
  }

  predicate Only(listing: Listing, t: Thread) {
    t in listing.threads && forall u :: u in listing.threads && u.key == t.key ==> u == t
  }

  predicate Unlisted(listing: Listing, key: Key) {
    forall u :: u in listing.threads ==> u.key != key
  }

  /** The thread is a member afterwards exactly as before, and unchanged. */
  predicate Same(order: Order, after: Order, key: Key) {
    && (key in after.members <==> key in order.members)
    && (key in after.members ==> after.members[key] == order.members[key])
  }

  /** Whether a listing moves a member up: a turn started, or one ended and that promotes. An end shows
    * in the state, or, where no boundary was ever seen, in a later update of an idle thread. */
  predicate MovesUp(m: Member, t: Thread, promoteOnTurnEnd: bool) {
    var active := if m.awaitingBaseline then m.active else t.statusActive;
    if active then !m.active
    else
      var updatedAt := if t.updatedAt.Some? then t.updatedAt.value else 0;
      promoteOnTurnEnd && (m.active || (!m.eventTracked && updatedAt > m.updatedAt))
  }

  /** The member a listed thread that calls becomes. */
  predicate Becomes(order: Order, listing: Listing, t: Thread, after: Order) {
    && t.key in after.members
    && var now := after.members[t.key];
    && now.updatedAt == (if t.updatedAt.Some? then t.updatedAt.value else 0)
    && (if t.key !in order.members then
          && now.active == t.statusActive && !now.awaitingBaseline && !now.eventTracked
          && now.eventTurnId.None? && now.observedTurnIds.None? && now.observedAt == listing.observedAt
          && order.nextRank <= now.rank < after.nextRank
        else
          var m := order.members[t.key];
          && now.active == (if m.awaitingBaseline then m.active else t.statusActive)
          && now.awaitingBaseline == (m.awaitingBaseline && t.statusActive != m.active)
          && now.eventTracked == m.eventTracked && now.observedTurnIds == m.observedTurnIds
          && (m.eventTurnId.Some? && m.eventTurnId.value != "" ==> now.eventTurnId == m.eventTurnId)
          && now.observedAt == (if now.awaitingBaseline || listing.observedAt.None? then m.observedAt
               else listing.observedAt)
          && (if MovesUp(m, t, listing.promoteOnTurnEnd) then order.nextRank <= now.rank < after.nextRank
              else now.rank == m.rank))
  }

  lemma RankWithin(order: Order, listing: Listing, key: Key)
    requires Inv(order) && key in Reconcile(order, listing).members
    ensures Reconcile(order, listing).members[key].rank < Reconcile(order, listing).nextRank
  {
    ReconcileKept(order, listing);
  }

  lemma VerdictOfOnly(order: Order, listing: Listing, t: Thread)
    requires Only(listing, t)
    ensures Verdict(order, listing, t.key) == if Eligible(order, listing, t) then Some(t) else None
    ensures t.key in Dropped(order, listing) <==> Drops(order, listing, t)
  {
    AfterListing(order, listing, t.key);
  }

  lemma VerdictRanks(order: Order, listing: Listing, threads: seq<Thread>, i: nat, n: nat)
    requires i < n <= |threads|
    ensures PlaceFirst(order, listing, threads, i).1 >= order.nextRank
    ensures TakesRank(Get(order, threads[i].key), threads[i], listing.promoteOnTurnEnd) ==>
      PlaceFirst(order, listing, threads, i).1 < PlaceFirst(order, listing, threads, n).1
  {
    CounterGrows(order, listing, threads, 0, i);
    CounterGrows(order, listing, threads, i, n);
  }

  /** Where an eligible thread, the only one of its key, is placed. */
  lemma PlacedRank(order: Order, listing: Listing, t: Thread)
    requires Only(listing, t) && Eligible(order, listing, t)
    ensures var after := Reconcile(order, listing);
      && t.key in after.members
      && exists rank :: after.members[t.key] == Placed(Get(order, t.key), t, listing, rank)
           && rank >= order.nextRank
           && (TakesRank(Get(order, t.key), t, listing.promoteOnTurnEnd) ==> rank < after.nextRank)
  {
    var threads := Candidates(order, listing);
    CandidatesAreEligible(order, listing);
    var i := LastOfFacts(threads, t.key);
    VerdictOfOnly(order, listing, t);
    PlacedAt(order, listing, threads, i, |threads|);
    VerdictRanks(order, listing, threads, i, |threads|);
  }

  lemma TakesRankIs(order: Order, t: Thread, promote: bool)
    ensures t.key !in order.members ==> TakesRank(Get(order, t.key), t, promote)
    ensures t.key in order.members ==>
      (TakesRank(Get(order, t.key), t, promote) <==> MovesUp(order.members[t.key], t, promote))
  {
  }

  /** A listed thread: left alone when overtaken, placed when it calls, and otherwise out, except for a
    * running turn that still waits to be listed. */
  lemma ListedThread(order: Order, listing: Listing, t: Thread)
    requires Inv(order) && Only(listing, t)
    ensures var after := Reconcile(order, listing);
      if Overtaken(order, listing, t.key) then Same(order, after, t.key)
      else if Calls(t) then Becomes(order, listing, t, after)
      else if (!t.nativeSubAgent && t.key in order.members && order.members[t.key].awaitingBaseline
               && order.members[t.key].active)
      then Same(order, after, t.key)
      else t.key !in after.members
  {
    AfterListing(order, listing, t.key);
    VerdictOfOnly(order, listing, t);
    hide Reconcile, Verdict;
    if Calls(t) && !Overtaken(order, listing, t.key) {
      PlacedRank(order, listing, t);
      TakesRankIs(order, t, listing.promoteOnTurnEnd);
      hide TakesRank, MovesUp, Eligible, Drops;
    } else {
      hide Placed, TakesRank;
      assert !Eligible(order, listing, t);
    }
  }

  /** A thread the listing does not have: out, if the listing is complete and nothing newer or still
    * waiting is known of it. */
  lemma UnlistedThread(order: Order, listing: Listing, key: Key)
    requires Inv(order) && Unlisted(listing, key)
    ensures var after := Reconcile(order, listing);
      if (listing.complete && key in order.members && !order.members[key].awaitingBaseline
          && !Overtaken(order, listing, key))
      then key !in after.members && (listing.observedAt.Some? ==>
        key in after.removed && after.removed[key] == listing.observedAt.value)
      else Same(order, after, key)
  {
    AfterListing(order, listing, key);
  }

  /** Above every rank there was. */
  predicate EndsHigh(order: Order, listing: Listing, key: Key) {
    key in Reconcile(order, listing).members && Reconcile(order, listing).members[key].rank >= order.nextRank
  }

  /** Of two listed threads that end above every rank there was, the one updated later ends higher;
    * updated at the same time, the one whose identity comes first. */
  lemma LaterUpdateEndsHigher(order: Order, listing: Listing, a: Thread, b: Thread)
    requires Inv(order) && Consistent(listing.collate) && Only(listing, a) && Only(listing, b)
    requires EndsHigh(order, listing, a.key) && EndsHigh(order, listing, b.key)
    requires a.updatedAt.GetOr(0) < b.updatedAt.GetOr(0)
      || (a.updatedAt.GetOr(0) == b.updatedAt.GetOr(0) && listing.collate(a.key, b.key) > 0)
    ensures Reconcile(order, listing).members[a.key].rank < Reconcile(order, listing).members[b.key].rank
  {
    PlacedHigh(order, listing, a);
    PlacedHigh(order, listing, b);
    LaterActivityRanksHigher(order, listing, a, b);
    hide Reconcile, Eligible, TakesRank;
  }

  /** Only a listed thread that takes a rank can end that high. */
  lemma PlacedHigh(order: Order, listing: Listing, t: Thread)
    requires Inv(order) && Only(listing, t) && EndsHigh(order, listing, t.key)
    ensures Eligible(order, listing, t) && TakesRank(Get(order, t.key), t, listing.promoteOnTurnEnd)
  {
    AfterListing(order, listing, t.key);
    VerdictOfOnly(order, listing, t);
    hide Reconcile, Verdict, Eligible;
    assert t.key in order.members ==> order.members[t.key].rank < order.nextRank;
  }

  /** What a listing leaves on record: the removals that are newer than it, and its own, each member it
    * took out; and that it was applied, if it is complete and no newer one was. */
  lemma ListingRecords(order: Order, listing: Listing, key: Key)
    requires Inv(order)
    ensures var after := Reconcile(order, listing);
      && (key in after.removed <==>
            || (key in order.removed && Later(Some(order.removed[key]), listing))
            || (key in order.members && key !in after.members && listing.observedAt.Some?))
      && (key in after.removed && key in order.members ==> after.removed[key] == listing.observedAt.value)
      && (key in after.removed && key !in order.members ==> after.removed[key] == order.removed[key])
      && after.listedAt ==
         if listing.complete && listing.observedAt.Some? && !Later(order.listedAt, listing) then listing.observedAt
         else order.listedAt
  {
    hide PlaceFirst, Candidates;
  }
}
