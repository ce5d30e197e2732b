/** The store object itself: each await-free segment of `readPage`, expiry, eviction and release,
  * written as the loops of navigation-query-store.ts and proved against the steps of `QueryStore`. */
module QueryStoreObject {
  import opened Prelude
  import opened StableSort
  import opened QueryPages
  import opened QueryStore
  import opened QueryEviction

  lemma {:induction false} KeepConcat<T>(a: seq<Generation<T>>, b: seq<Generation<T>>, keep: Generation<T> -> bool)
    ensures Keep(a + b, keep) == Keep(a, keep) + Keep(b, keep)
    decreases |b|
  {
    if b == [] {
      assert a + b == a;
    } else {
      var front, last := b[..|b| - 1], b[|b| - 1];
      assert (a + b)[..|a + b| - 1] == a + front;
      KeepConcat(a, front, keep);
    }
  }

  lemma OthersKept<T>(gs: seq<Generation<T>>, id: string)
    requires id !in Ids(gs)
    ensures Delete(gs, id) == gs
  {
    forall g | g in gs ensures g.id != id {
      var i :| 0 <= i < |gs| && gs[i] == g;
      assert gs[i].id in Ids(gs);
    }
    KeepAll(gs, (g: Generation<T>) => g.id != id);
  }

  lemma DeleteMiddle<T>(front: seq<Generation<T>>, g: Generation<T>, rest: seq<Generation<T>>)
    requires g.id !in Ids(front) && g.id !in Ids(rest)
    ensures Delete(front + ([g] + rest), g.id) == front + rest
  {
    var other := (x: Generation<T>) => x.id != g.id;
    OthersKept(front, g.id);
    OthersKept(rest, g.id);
    KeepConcat([g], rest, other);
    KeepConcat(front, [g] + rest, other);
  }

  /** One more generation of a list whose front has been filtered already. */
  lemma FilterNext<T>(all: seq<Generation<T>>, i: nat, keep: Generation<T> -> bool)
    requires Distinct(all) && i < |all|
    ensures var partly := Keep(all[..i], keep) + all[i..];
      (if keep(all[i]) then partly else Delete(partly, all[i].id)) == Keep(all[..i + 1], keep) + all[i + 1..]
  {
    var front, g, rest := all[..i], all[i], all[i + 1..];
    assert all[..i + 1][..i] == front && all[i..] == [g] + rest;
    if keep(g) {
      assert Keep(front, keep) + ([g] + rest) == (Keep(front, keep) + [g]) + rest;
    } else {
      KeepFacts(front, keep);
      DeleteMiddle(Keep(front, keep), g, rest);
    }
  }

  class NavigationQueryStore<T(!new)> {
    const cfg: Setup<T>
    var generations: seq<Generation<T>>
    var current: map<(string, string), string>
    var lifetimes: map<(string, string), nat>
    var closedAt: map<nat, int>
    var tokens: nat

    ghost function Contents(): State<T>
      reads this
    {
      State(generations, current, lifetimes, closedAt)
    }

    ghost predicate Valid()
      reads this
    {
      Distinct(generations)
    }

    constructor (cfg: Setup<T>)
      ensures Valid() && Contents() == State([], map[], map[], map[]) && this.cfg == cfg && tokens == 0
    {
      this.cfg := cfg;
      generations, current, lifetimes, closedAt, tokens := [], map[], map[], map[], 0;
    }

    /** Deletes the generations that are not to be kept, and then the entries that named them. */
    method DeleteUnless(keep: Generation<T> -> bool)
      requires Valid()
      modifies `generations, `current
      ensures Valid() && generations == Keep(old(generations), keep)
      ensures current == Pruned(old(current), Ids(generations))
    {
      hide Keep, Delete, Pruned, Ids;
      var all, i := generations, 0;
      KeepNone(keep);
      assert all[..0] == [] && all[0..] == all;
      while i < |all|
        invariant i <= |all| && generations == Keep(all[..i], keep) + all[i..]
        invariant current == old(current)
      {
        FilterNext(all, i, keep);
        if !keep(all[i]) {
          generations := Delete(generations, all[i].id);
        }
        i := i + 1;
      }
      assert all[..i] == all && all[i..] == [];
      KeepFacts(all, keep);
      current := Pruned(current, Ids(generations));
    }

    method ExpireIdle(now: int)
      requires Valid()
      modifies this
      ensures Valid() && Contents() == Expire(old(Contents()), now) && tokens == old(tokens)
    {
      lifetimes := map key |
        key in lifetimes && !(lifetimes[key] in closedAt && now - closedAt[lifetimes[key]] > IDLE_MS)
                       :: lifetimes[key];
      DeleteUnless((g: Generation<T>) => now - g.lastAccess <= IDLE_MS);
    }

    method ReleaseAttentionView(scope: string, view: string, now: int)
      requires Valid()
      modifies this
      ensures Valid() && Contents() == Release(old(Contents()), scope, view, now) && tokens == old(tokens)
    {
      if (scope, view) in lifetimes {
        closedAt := closedAt[lifetimes[(scope, view)] := now];
      }
      DeleteUnless((g: Generation<T>) => !(g.scope == scope && g.view == Some(view)));
    }

    /** Evicts one victim at a time, keeping the running byte total. */
    method RetainGeneration(g: Generation<T>)
      requires Valid() && g.id !in Ids(generations) && current.Values <= Ids(generations)
      modifies `generations, `current
      ensures Valid() && Contents() == Retain(old(Contents()), g)
    {
      hide Sort, EvictionOrder, Evict, Keep, Delete, Pruned, Bytes, Ids;
      ghost var before := Contents();
      var retained := Bytes(generations);
      var evictable := EvictionOrder(State(generations, current, lifetimes, closedAt));
      OrderFacts(Contents());
      PrunedAll(current, Ids(generations));
      while |generations| >= MAX_GENERATIONS || retained + g.content.bytes > MAX_RETAINED_BYTES
        invariant Distinct(generations) && Distinct(evictable) && multiset(evictable) == multiset(generations)
        invariant Ids(generations) <= Ids(before.generations)
        invariant retained == Bytes(generations)
        invariant Evict(generations, evictable, g) == Evict(before.generations, EvictionOrder(before), g)
        invariant current == Pruned(before.current, Ids(generations))
        decreases |evictable|
      {
        if evictable == [] {
          break;
        }
        var oldest := evictable[0];
        DeleteOldest(generations, evictable);
        EvictStep(generations, evictable, g);
        PrunedTwice(before.current, Ids(generations), oldest.id);
        generations := Delete(generations, oldest.id);
        retained := retained - oldest.content.bytes;
        current := Pruned(current, current.Values - {oldest.id});
        evictable := evictable[1..];
      }
      EvictDone(generations, evictable, g);
      IdsAppend(generations, g);
      generations := generations + [g];
    }

    method Access(id: string, now: int)
      requires Valid()
      modifies `generations
      ensures Valid() && generations == Touch(old(generations), id, now)
    {
      TouchFacts(generations, id, now);
      generations := Touch(generations, id, now);
    }

    /** `readPage` up to its await: a page by cursor, a refusal, or an index to load. */
    method ReadStart(r: Request<T>, now: int) returns (started: Started<T>)
      requires Valid()
      modifies this
      ensures Valid() && (Contents(), started) == Start(cfg, old(Contents()), r, now, old(tokens))
      ensures tokens == old(tokens) + 1
    {
      hide Expire, Opened, ValidRequest;
      tokens := tokens + 1;
      if !ValidRequest(r) {
        return Answered(Refused(InvalidRequest));
      }
      ExpireIdle(now);
      if r.view.Some? {
        var key := (r.scope, r.view.value);
        if key !in lifetimes {
          if |lifetimes| >= MAX_LIFETIMES || cfg.lifetimeBytes(lifetimes.Keys + {key}) > MAX_LIFETIME_BYTES {
            return Answered(Refused(Busy));
          }
          lifetimes := lifetimes[key := tokens - 1];
        }
      }
      started := ReadAdmitted(r, now);
    }

    method ReadAdmitted(r: Request<T>, now: int) returns (started: Started<T>)
      requires Valid() && ValidRequest(r) && (r.view.Some? ==> (r.scope, r.view.value) in lifetimes)
      modifies `generations
      ensures Valid() && (Contents(), started) == Opened(cfg, old(Contents()), r, now)
    {
      hide CursorRead, ValidRequest;
      var lifetime := if r.view.Some? then Some(lifetimes[(r.scope, r.view.value)]) else None;
      if lifetime.Some? && lifetime.value in closedAt {
        return Answered(Refused(InvalidRequest));
      }
      if r.cursor.None? {
        return Loading(Pending(r, now, lifetime));
      }
      var answer := ReadCursor(r, r.cursor.value, now);
      started := Answered(answer);
    }

    method ReadCursor(r: Request<T>, text: CursorText, now: int) returns (answer: Answer<T>)
      requires Valid() && ValidRequest(r)
      modifies `generations
      ensures Valid() && (Contents(), answer) == CursorRead(cfg, old(Contents()), r, text, now)
    {
      if text.Malformed? || text.cursor.scope != r.scope || text.cursor.query != r.query {
        return Refused(InvalidRequest);
      }
      var found := Lookup(generations, text.cursor.generation);
      if found.None? {
        return Refused(CursorExpired);
      }
      var g := found.value;
      if g.scope != r.scope || g.content.query != r.query {
        return Refused(InvalidRequest);
      }
      Access(g.id, now);
      answer := BuildPage(cfg.measure, g, text.cursor.offset, PageSize(r));
    }

    /** The rest of `readPage`, once `loadIndex` settled. */
    method ReadFinish(p: Pending<T>, load: Load<T>, id: string) returns (answer: Answer<T>)
      requires Valid() && ValidRequest(p.request) && id !in Ids(generations) && current.Values <= Ids(generations)
      modifies `generations, `current
      ensures Valid() && (Contents(), answer) == Finish(cfg, old(Contents()), p, load, id)
    {
      hide LoadedPage, Touch, Retain, Lookup;
      if load.Rejected? {
        return Refused(LoadFailed);
      }
      if p.lifetime.Some? && p.lifetime.value in closedAt {
        return Refused(InvalidRequest);
      }
      if load.projection.None? {
        return Refused(LoadFailed);
      }
      var m := load.projection.value;
      if m.bytes > MAX_RETAINED_BYTES {
        return Refused(Busy);
      }
      var key := (p.request.scope, p.request.query);
      var g, minted := Generation(id, p.request.scope, p.request.view, m, p.now), true;
      if key in current {
        LookupFacts(generations, current[key]);
        var found := Lookup(generations, current[key]);
        if found.Some? && found.value.content.revision == m.revision {
          g, minted := found.value, false;
        }
      }
      assert g == Chosen(Contents(), p, m, id) && (minted <==> g.id !in Ids(generations));
      var accessed;
      answer, accessed := PageFor(p.request, g);
      TouchFacts(generations, g.id, p.now);
      if accessed {
        Access(g.id, p.now);
      }
      if minted && answer.Served? && answer.page.next.Some? {
        RetainGeneration(g);
        current := current[key := g.id];
      }
    }

    method PageFor(r: Request<T>, g: Generation<T>) returns (answer: Answer<T>, accessed: bool)
      requires ValidRequest(r)
      ensures (answer, accessed) == LoadedPage(cfg, r, g)
    {
      if r.baseline == Some(g.content.revision) {
        var page := Unchanged(g);
        if cfg.measure(g.content, page) > MAX_RESULT_BYTES {
          return Refused(ResponseTooLarge), false;
        }
        return Served(page), true;
      }
      if r.range.Some? && r.range.value.revision == g.content.revision && r.range.value.ownerEpoch == cfg.ownerEpoch {
        var range := r.range.value;
        if range.start + range.count > |g.content.rows| {
          return Refused(InvalidRequest), false;
        }
        answer := BuildPage(cfg.measure, g, range.start + range.count, 0);
        if answer.Refused? {
          return answer, false;
        }
        var page := answer.page.(start := range.start, range := Some(Range(range.start, range.count)));
        if cfg.measure(g.content, page) > MAX_RESULT_BYTES {
          return Refused(ResponseTooLarge), false;
        }
        return Served(page), true;
      }
      var offset := 0;
      if r.anchor.Some? {
        var found := FindIndex(g.content.rows, r.anchor.value, 0);
        if found.None? {
          return Refused(AnchorMissing), false;
        }
        offset := found.value;
      }
      answer := BuildPage(cfg.measure, g, offset, PageSize(r));
      accessed := true;
    }
  }

  lemma PrunedAll(current: map<(string, string), string>, ids: set<string>)
    requires current.Values <= ids
    ensures Pruned(current, ids) == current
  {
    forall key | key in current ensures current[key] in ids {
      assert current[key] in current.Values;
    }
  }

  lemma PrunedTwice(current: map<(string, string), string>, ids: set<string>, gone: string)
    ensures var before := Pruned(current, ids);
      Pruned(before, before.Values - {gone}) == Pruned(current, ids - {gone})
  {
    var before := Pruned(current, ids);
    forall key | key in before ensures before[key] in before.Values {
      assert before[key] == current[key];
    }
  }

  lemma EvictStep<T>(gs: seq<Generation<T>>, evictable: seq<Generation<T>>, incoming: Generation<T>)
    requires evictable != [] && Full(gs, incoming)
    ensures Evict(gs, evictable, incoming) == Evict(Delete(gs, evictable[0].id), evictable[1..], incoming)
  {
  }

  lemma EvictDone<T>(gs: seq<Generation<T>>, evictable: seq<Generation<T>>, incoming: Generation<T>)
    requires evictable == [] || !Full(gs, incoming)
    ensures Evict(gs, evictable, incoming) == gs
  {
  }

  lemma KeepNone<T>(keep: Generation<T> -> bool)
    ensures Keep([], keep) == []
  {
  }

  lemma DeleteOldest<T>(gs: seq<Generation<T>>, evictable: seq<Generation<T>>)
    requires Distinct(gs) && Distinct(evictable) && multiset(evictable) == multiset(gs) && evictable != []
    ensures var less := Delete(gs, evictable[0].id);
      && Distinct(less) && Distinct(evictable[1..]) && multiset(evictable[1..]) == multiset(less)
      && Bytes(less) == Bytes(gs) - evictable[0].content.bytes && Ids(less) == Ids(gs) - {evictable[0].id}
  {
    hide Keep, Bytes, Ids;
    var oldest, less := evictable[0], Delete(gs, evictable[0].id);
    assert oldest in multiset(gs);
    KeepFacts(gs, (g: Generation<T>) => g.id != oldest.id);
    DeleteBytes(gs, oldest);
    DeleteOne(gs, oldest);
    RestOf(evictable);
    assert multiset(less) == multiset(gs) - multiset{oldest};
  }

  lemma RestOf<T>(gs: seq<Generation<T>>)
    requires Distinct(gs) && gs != []
    ensures Distinct(gs[1..]) && multiset(gs[1..]) == multiset(gs) - multiset{gs[0]}
  {
    assert gs == [gs[0]] + gs[1..];
  }

  lemma {:induction false} DeleteOne<T>(gs: seq<Generation<T>>, victim: Generation<T>)
    requires Distinct(gs) && victim in gs
    ensures multiset(gs) == multiset(Delete(gs, victim.id)) + multiset{victim}
    ensures Ids(Delete(gs, victim.id)) == Ids(gs) - {victim.id}
    decreases |gs|
  {
    hide Ids, Bytes;
    var front, last := gs[..|gs| - 1], gs[|gs| - 1];
    assert gs == front + [last];
    IdsAppend(front, last);
    if last.id == victim.id {
      OnlyOne(gs, victim);
      OthersKept(front, victim.id);
    } else {
      DeleteOne(front, victim);
      IdsAppend(Delete(front, victim.id), last);
    }
  }

  lemma OnlyOne<T>(gs: seq<Generation<T>>, victim: Generation<T>)
    requires Distinct(gs) && victim in gs && gs[|gs| - 1].id == victim.id
    ensures gs[|gs| - 1] == victim
  {
    var i :| 0 <= i < |gs| && gs[i] == victim;
    if i < |gs| - 1 { assert false; }
  }
}
