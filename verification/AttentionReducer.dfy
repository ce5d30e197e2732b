/** `reconcileNavigationAttentionOrder` as it is written: loops over local mutable maps and a
  * rank counter, proved to compute the specification in AttentionOrder. */
module AttentionReducer {
  import opened Prelude
  import opened StableSort
  import opened AttentionOrder

  method ReconcileNavigationAttentionOrder(order: Order, listing: Listing) returns (result: Order)
    ensures result == Reconcile(order, listing)
  {
    var members := CarryOver(order, listing);
    var removed := CarryRemovals(order, listing);
    var i := 0;
    while i < |listing.threads|
      invariant 0 <= i <= |listing.threads|
      invariant members ==
        Kept(order, listing) - (set t | t in listing.threads[..i] && Drops(order, listing, t) :: t.key)
    {
      var t := listing.threads[i];
      assert listing.threads[..i + 1] == listing.threads[..i] + [t];
      if Drops(order, listing, t) {
        members := members - {t.key};
      }
      i := i + 1;
    }
    assert listing.threads[..i] == listing.threads;
    assert members == Kept(order, listing) - Dropped(order, listing);
    var eligible := SelectEligible(order, listing);
    var nextRank := order.nextRank;
    i := 0;
    while i < |eligible|
      invariant 0 <= i <= |eligible|
      invariant (members, nextRank) == PlaceFirst(order, listing, eligible, i)
    {
      var t := eligible[i];
      var previous := Get(order, t.key);
      var rank := nextRank;
      members := members[t.key := Placed(previous, t, listing, rank)];
      if TakesRank(previous, t, listing.promoteOnTurnEnd) {
        nextRank := nextRank + 1;
      }
      i := i + 1;
    }
    if listing.observedAt.Some? {
      removed := RecordGone(order, listing.observedAt.value, members, removed);
    }
    var listedAt := if listing.complete && listing.observedAt.Some? && !Follows(order.listedAt, listing)
                    then listing.observedAt else order.listedAt;
    result := Order(members, nextRank, removed, listedAt);
  }

  method CarryOver(order: Order, listing: Listing) returns (members: map<Key, Member>)
    ensures members == Kept(order, listing)
  {
    members := if listing.complete then map[] else order.members;
    var rest := order.members.Keys;
    while rest != {}
      invariant rest <= order.members.Keys
      invariant members ==
        map k | k in order.members && (!listing.complete || (k !in rest && Carried(order.members[k], listing)))
             :: order.members[k]
      decreases rest
    {
      var k :| k in rest;
      rest := rest - {k};
      if Carried(order.members[k], listing) {
        members := members[k := order.members[k]];
      }
    }
  }

  method CarryRemovals(order: Order, listing: Listing) returns (removed: map<Key, int>)
    ensures removed == StillRemoved(order, listing)
  {
    removed := map[];
    var rest := order.removed.Keys;
    while rest != {}
      invariant rest <= order.removed.Keys
      invariant removed ==
        map k | k in order.removed && k !in rest && Follows(Some(order.removed[k]), listing) :: order.removed[k]
      decreases rest
    {
      var k :| k in rest;
      rest := rest - {k};
      if Follows(Some(order.removed[k]), listing) {
        removed := removed[k := order.removed[k]];
      }
    }
  }

  method SelectEligible(order: Order, listing: Listing) returns (eligible: seq<Thread>)
    ensures eligible == Candidates(order, listing)
  {
    eligible := [];
    var i := 0;
    while i < |listing.threads|
      invariant 0 <= i <= |listing.threads|
      invariant eligible == Filter(order, listing, listing.threads[..i])
    {
      var t := listing.threads[i];
      assert listing.threads[..i + 1][..i] == listing.threads[..i];
      if Eligible(order, listing, t) {
        eligible := eligible + [t];
      }
      i := i + 1;
    }
    assert listing.threads[..i] == listing.threads;
    eligible := Sort(eligible, Compare(listing));
  }

  /** A member this listing took out stays out for any older listing. */
  method RecordGone(order: Order, at: int, members: map<Key, Member>, before: map<Key, int>)
    returns (removed: map<Key, int>)
    ensures removed == before + map k | k in order.members && k !in members :: at
  {
    removed := before;
    var rest := order.members.Keys;
    while rest != {}
      invariant rest <= order.members.Keys
      invariant removed == before + map k | k in order.members && k !in rest && k !in members :: at
      decreases rest
    {
      var k :| k in rest;
      rest := rest - {k};
      if k !in members {
        removed := removed[k := at];
      }
    }
  }
}
