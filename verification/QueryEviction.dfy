/** What eviction keeps and takes: the retained list never exceeds its limits, and it gives up
  * superseded generations first, older access first, and no more of them than it must. */
module QueryEviction {
  import opened Prelude
  import opened QueryPages
  import opened StableSort
  import opened QueryStore

  lemma BytesAppend<T>(gs: seq<Generation<T>>, g: Generation<T>)
    ensures Bytes(gs + [g]) == Bytes(gs) + g.content.bytes
  {
    assert (gs + [g])[..|gs|] == gs;
  }

  lemma {:induction false} KeepMembers<T>(gs: seq<Generation<T>>, keep: Generation<T> -> bool, g: Generation<T>)
    ensures g in Keep(gs, keep) <==> g in gs && keep(g)
    decreases |gs|
  {
    if gs != [] {
      KeepMembers(gs[..|gs| - 1], keep, g);
      assert gs == gs[..|gs| - 1] + [gs[|gs| - 1]];
    }
  }

  lemma {:induction false} KeepFacts<T>(gs: seq<Generation<T>>, keep: Generation<T> -> bool)
    ensures |Keep(gs, keep)| <= |gs| && Bytes(Keep(gs, keep)) <= Bytes(gs) && Ids(Keep(gs, keep)) <= Ids(gs)
    ensures Distinct(gs) ==> Distinct(Keep(gs, keep))
    decreases |gs|
  {
    if gs != [] {
      var front, last := gs[..|gs| - 1], gs[|gs| - 1];
      KeepFacts(front, keep);
      assert gs == front + [last];
      BytesAppend(Keep(front, keep), last);
      IdsAppend(Keep(front, keep), last);
      IdsAppend(front, last);
    }
  }

  lemma {:induction false} DeleteBytes<T>(gs: seq<Generation<T>>, victim: Generation<T>)
    requires Distinct(gs) && victim in gs
    ensures |Delete(gs, victim.id)| == |gs| - 1
    ensures Bytes(Delete(gs, victim.id)) == Bytes(gs) - victim.content.bytes
    decreases |gs|
  {
    var front, last := gs[..|gs| - 1], gs[|gs| - 1];
    assert gs == front + [last];
    if last.id == victim.id {
      assert last == victim by {
        var i :| 0 <= i < |gs| && gs[i] == victim;
        if i < |gs| - 1 { assert false; }
      }
      forall g | g in front ensures g.id != victim.id {
        var i :| 0 <= i < |front| && front[i] == g;
        assert gs[i] == g;
      }
      KeepAll(front, (g: Generation<T>) => g.id != victim.id);
    } else {
      DeleteBytes(front, victim);
      BytesAppend(Delete(front, victim.id), last);
    }
  }

  lemma {:induction false} KeepAll<T>(gs: seq<Generation<T>>, keep: Generation<T> -> bool)
    requires forall g :: g in gs ==> keep(g)
    ensures Keep(gs, keep) == gs
    decreases |gs|
  {
    if gs != [] {
      KeepAll(gs[..|gs| - 1], keep);
    }
  }

  lemma {:induction false} KeepTwice<T>(gs: seq<Generation<T>>, one: Generation<T> -> bool,
                                        two: Generation<T> -> bool, both: Generation<T> -> bool)
    requires forall g :: g in gs ==> (both(g) <==> one(g) && two(g))
    ensures Keep(Keep(gs, one), two) == Keep(gs, both)
    decreases |gs|
  {
    if gs != [] {
      var front, last := gs[..|gs| - 1], gs[|gs| - 1];
      assert gs == front + [last];
      assert forall g :: g in front ==> g in gs;
      KeepTwice(front, one, two, both);
      var kept := Keep(front, one);
      assert (kept + [last])[..|kept|] == kept;
    }
  }

  lemma {:induction false} TouchFacts<T>(gs: seq<Generation<T>>, id: string, now: int)
    ensures Ids(Touch(gs, id, now)) == Ids(gs) && Bytes(Touch(gs, id, now)) == Bytes(gs)
    ensures Distinct(gs) ==> Distinct(Touch(gs, id, now))
    decreases |gs|
  {
    var touched := Touch(gs, id, now);
    assert forall i :: 0 <= i < |gs| ==> touched[i].id == gs[i].id;
    if gs != [] {
      TouchFacts(gs[..|gs| - 1], id, now);
      assert touched[..|gs| - 1] == Touch(gs[..|gs| - 1], id, now);
    }
  }

  lemma {:induction false} LookupFacts<T>(gs: seq<Generation<T>>, id: string)
    ensures Lookup(gs, id).None? <==> id !in Ids(gs)
    ensures Lookup(gs, id).Some? ==> Lookup(gs, id).value in gs && Lookup(gs, id).value.id == id
    decreases |gs|
  {
    if gs != [] {
      LookupFacts(gs[..|gs| - 1], id);
      assert gs == gs[..|gs| - 1] + [gs[|gs| - 1]];
      assert forall x :: x in Ids(gs) <==> x in Ids(gs[..|gs| - 1]) || x == gs[|gs| - 1].id;
    }
  }

  // ---- eviction ----

  function Survivors<T>(gs: seq<Generation<T>>, victims: seq<Generation<T>>): seq<Generation<T>> {
    Keep(gs, (g: Generation<T>) => g.id !in Ids(victims))
  }

  /** Eviction takes a prefix of its order, and one victim fewer would not have been enough. */
  lemma {:induction false} EvictsPrefix<T>(gs: seq<Generation<T>>, order: seq<Generation<T>>, incoming: Generation<T>)
    returns (k: nat)
    requires Distinct(gs) && Distinct(order)
    ensures k <= |order| && Evict(gs, order, incoming) == Survivors(gs, order[..k])
    ensures k > 0 ==> Full(Survivors(gs, order[..k - 1]), incoming)
    ensures k == |order| || !Full(Evict(gs, order, incoming), incoming)
    decreases |order|
  {
    hide Full, Survivors, Delete;
    if !Full(gs, incoming) || order == [] {
      k := 0;
      NoVictims(gs, order);
    } else {
      var less := Delete(gs, order[0].id);
      StaysDistinct(gs, order);
      var rest := EvictsPrefix(less, order[1..], incoming);
      k := rest + 1;
      SurvivorsStep(gs, order, rest);
      if rest > 0 {
        SurvivorsStep(gs, order, rest - 1);
      } else {
        NoVictims(gs, order);
      }
    }
  }

  lemma NoVictims<T>(gs: seq<Generation<T>>, order: seq<Generation<T>>)
    ensures Survivors(gs, order[..0]) == gs
  {
    KeepAll(gs, (g: Generation<T>) => g.id !in Ids(order[..0]));
  }

  lemma StaysDistinct<T>(gs: seq<Generation<T>>, order: seq<Generation<T>>)
    requires Distinct(gs) && Distinct(order) && order != []
    ensures Distinct(Delete(gs, order[0].id)) && Distinct(order[1..])
  {
    KeepFacts(gs, (g: Generation<T>) => g.id != order[0].id);
  }

  lemma SurvivorsStep<T>(gs: seq<Generation<T>>, order: seq<Generation<T>>, rest: nat)
    requires rest < |order|
    ensures Survivors(Delete(gs, order[0].id), order[1..][..rest]) == Survivors(gs, order[..rest + 1])
  {
    assert order[..rest + 1] == [order[0]] + order[1..][..rest];
    assert forall x :: x in Ids(order[..rest + 1]) <==> x == order[0].id || x in Ids(order[1..][..rest]);
    KeepTwice(gs, (g: Generation<T>) => g.id != order[0].id, (g: Generation<T>) => g.id !in Ids(order[1..][..rest]),
              (g: Generation<T>) => g.id !in Ids(order[..rest + 1]));
  }

  lemma {:induction false} InsertDistinct<T>(sorted: seq<Generation<T>>, x: Generation<T>,
                                             compare: (Generation<T>, Generation<T>) -> int)
    requires Distinct(sorted) && x.id !in Ids(sorted)
    ensures Distinct(Insert(sorted, x, compare)) && Ids(Insert(sorted, x, compare)) == Ids(sorted) + {x.id}
    decreases |sorted|
  {
    if sorted != [] {
      var front, last := sorted[..|sorted| - 1], sorted[|sorted| - 1];
      IdsAppend(front, last);
      IdsAppend(sorted, x);
      assert sorted == front + [last];
      if compare(last, x) > 0 {
        InsertDistinct(front, x, compare);
        IdsAppend(Insert(front, x, compare), last);
      }
    } else {
      IdsAppend(sorted, x);
    }
  }

  lemma IdsAppend<T>(gs: seq<Generation<T>>, g: Generation<T>)
    ensures Ids(gs + [g]) == Ids(gs) + {g.id}
    ensures Distinct(gs + [g]) <==> Distinct(gs) && g.id !in Ids(gs)
  {
    var all := gs + [g];
    assert all[|gs|] == g && forall i :: 0 <= i < |gs| ==> all[i] == gs[i];
    forall x ensures x in Ids(all) <==> x in Ids(gs) + {g.id} {
      if x in Ids(gs) {
        var i :| 0 <= i < |gs| && gs[i].id == x;
        assert all[i].id == x;
      }
    }
    if Distinct(all) {
      forall i | 0 <= i < |gs| ensures gs[i].id != g.id {
        assert all[i].id != all[|gs|].id;
      }
      forall i, j | 0 <= i < j < |gs| ensures gs[i].id != gs[j].id {
        assert all[i].id != all[j].id;
      }
    }
  }

  lemma {:induction false} SortDistinct<T>(gs: seq<Generation<T>>, compare: (Generation<T>, Generation<T>) -> int)
    requires Distinct(gs)
    ensures Distinct(Sort(gs, compare)) && Ids(Sort(gs, compare)) == Ids(gs)
    decreases |gs|
  {
    if gs != [] {
      var front, last := gs[..|gs| - 1], gs[|gs| - 1];
      assert gs == front + [last];
      IdsAppend(front, last);
      SortDistinct(front, compare);
      InsertDistinct(Sort(front, compare), last, compare);
    }
  }

  lemma OrderFacts<T(!new)>(s: State<T>)
    requires Distinct(s.generations)
    ensures Distinct(EvictionOrder(s)) && Ids(EvictionOrder(s)) == Ids(s.generations)
    ensures Ordered(EvictionOrder(s), (left: Generation<T>, right: Generation<T>) =>
      Victims(s.current.Values, left, right))
    ensures multiset(EvictionOrder(s)) == multiset(s.generations)
  {
    var compare := (left: Generation<T>, right: Generation<T>) => Victims(s.current.Values, left, right);
    SortDistinct(s.generations, compare);
    SortPermutes(s.generations, compare);
    SortKeepsOrder(s, compare);
  }

  lemma SortKeepsOrder<T(!new)>(s: State<T>, compare: (Generation<T>, Generation<T>) -> int)
    requires forall a, b :: compare(a, b) == Victims(s.current.Values, a, b)
    ensures Ordered(Sort(s.generations, compare), compare)
  {
    SortOrdered(s.generations, compare);
  }


  /** Eviction as a whole: it makes room, the evicted are the front of the order and so come before
    * all that stay, and giving up one generation fewer would not have made room. */
  lemma MakesRoom<T(!new)>(s: State<T>, incoming: Generation<T>) returns (k: nat)
    requires Distinct(s.generations) && incoming.content.bytes <= MAX_RETAINED_BYTES
    ensures var order := EvictionOrder(s);
      var kept := Evict(s.generations, order, incoming);
      && k <= |order| && kept == Survivors(s.generations, order[..k]) && !Full(kept, incoming)
      && (k > 0 ==> Full(Survivors(s.generations, order[..k - 1]), incoming))
      && (forall i, j :: 0 <= i < k <= j < |order| ==> Victims(s.current.Values, order[i], order[j]) <= 0)
      && Distinct(order) && multiset(order) == multiset(s.generations)
  {
    var order := EvictionOrder(s);
    OrderFacts(s);
    k := EvictsPrefix(s.generations, order, incoming);
    if k == |order| {
      assert order[..k] == order;
      NoneLeft(s.generations, order);
    }
  }

  lemma {:induction false} NoneLeft<T>(gs: seq<Generation<T>>, victims: seq<Generation<T>>)
    requires Ids(gs) <= Ids(victims)
    ensures Survivors(gs, victims) == []
    decreases |gs|
  {
    if gs != [] {
      var front, last := gs[..|gs| - 1], gs[|gs| - 1];
      assert gs == front + [last];
      IdsAppend(front, last);
      NoneLeft(front, victims);
    }
  }

  /** No current generation goes while a superseded one stays, and within either kind no
    * generation goes while one accessed earlier stays. */
  lemma EvictsOldestSuperseded<T(!new)>(s: State<T>, incoming: Generation<T>, gone: Generation<T>, stays: Generation<T>)
    requires Distinct(s.generations) && incoming.content.bytes <= MAX_RETAINED_BYTES
    requires gone in s.generations && gone !in Evict(s.generations, EvictionOrder(s), incoming)
    requires stays in Evict(s.generations, EvictionOrder(s), incoming)
    ensures gone.id in s.current.Values ==> stays.id in s.current.Values
    ensures (gone.id in s.current.Values <==> stays.id in s.current.Values) ==> gone.lastAccess <= stays.lastAccess
  {
    hide Evict, EvictionOrder, Full;
    var order := EvictionOrder(s);
    var k := MakesRoom(s, incoming);
    var staying := (g: Generation<T>) => g.id !in Ids(order[..k]);
    KeepMembers(s.generations, staying, gone);
    KeepMembers(s.generations, staying, stays);
    forall n | 0 <= n < k ensures order[n].id in Ids(order[..k]) {
      assert order[..k][n] == order[n];
    }
    var i :| 0 <= i < k && order[i].id == gone.id;
    assert gone in multiset(order) && stays in multiset(order);
    var m :| 0 <= m < |order| && order[m] == gone;
    var j :| 0 <= j < |order| && order[j] == stays;
    assert m == i;
  }
}
