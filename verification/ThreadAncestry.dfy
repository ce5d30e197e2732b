/** The two upward walks of navigation-query-projection.ts: the root a lens files a thread under,
  * and `exact` rows together with their ancestors. */
module ThreadAncestry {
  import opened Prelude
  import opened GroupMembers

  const ROOT_LEVELS := 32
  const MAX_IDENTITIES := 100

  /** The parent of each thread, where that parent is in the inventory. */
  type Parents = map<Key, Key>

  function ParentsOf(byKey: map<Key, Thread>, parentOf: Thread -> Option<Key>): Parents {
    map k | k in byKey && parentOf(byKey[k]).Some? && parentOf(byKey[k]).value in byKey :: parentOf(byKey[k]).value
  }

  // ---- trails ----

  /** A thread and its distinct ancestors, nearest first. */
  function Trail(up: Parents, seen: seq<Key>): (trail: seq<Key>)
    requires seen != []
    ensures seen <= trail
    decreases |up.Values - (set k | k in seen)|
  {
    var last := seen[|seen| - 1];
    if last in up && up[last] !in seen then
      assert up[last] in up.Values;
      Shrinks(up.Values, seen, up[last]);
      Trail(up, seen + [up[last]])
    else seen
  }

  lemma Shrinks(values: set<Key>, seen: seq<Key>, x: Key)
    requires x in values && x !in seen
    ensures |values - (set k | k in seen + [x])| < |values - (set k | k in seen)|
  {
    assert values - (set k | k in seen + [x]) == (values - (set k | k in seen)) - {x};
  }

  /** The thread a lens shows `key` under: the oldest ancestor within 32 levels. */
  function Root(up: Parents, key: Key): Key {
    var trail := Trail(up, [key]);
    trail[Min(|trail| - 1, ROOT_LEVELS)]
  }

  lemma {:induction false} TrailDistinct(up: Parents, seen: seq<Key>)
    requires seen != [] && NoRepeats(seen)
    ensures NoRepeats(Trail(up, seen))
    decreases |up.Values - (set k | k in seen)|
  {
    var last := seen[|seen| - 1];
    if last in up && up[last] !in seen {
      Shrinks(up.Values, seen, up[last]);
      TrailDistinct(up, seen + [up[last]]);
    }
  }

  /** Below its parent's trail, a thread only adds itself. */
  lemma {:induction false} TrailBelow(up: Parents, key: Key, seen: seq<Key>)
    requires seen != [] && key !in Trail(up, seen)
    ensures Trail(up, [key] + seen) == [key] + Trail(up, seen)
    decreases |up.Values - (set k | k in seen)|
  {
    var last, below := seen[|seen| - 1], [key] + seen;
    assert below[|below| - 1] == last;
    if last in up && up[last] !in seen {
      Shrinks(up.Values, seen, up[last]);
      assert up[last] in (seen + [up[last]]);
      assert up[last] in Trail(up, seen + [up[last]]);
      TrailBelow(up, key, seen + [up[last]]);
      assert below + [up[last]] == [key] + (seen + [up[last]]);
    }
  }

  /** On a cycle, a parent's trail is the same round, one step further. */
  lemma {:induction false} TrailAround(up: Parents, key: Key, seen: seq<Key>)
    requires seen != [] && key !in seen && key in Trail(up, seen) && key in up && up[key] == seen[0]
    ensures Trail(up, seen) == Trail(up, [key] + seen)[1..] + [key]
    decreases |up.Values - (set k | k in seen)|
  {
    var last, around := seen[|seen| - 1], [key] + seen;
    assert around[|around| - 1] == last;
    assert last in up && up[last] !in seen;
    Shrinks(up.Values, seen, up[last]);
    if up[last] == key {
      assert Trail(up, around) == around;
      assert Trail(up, seen + [key]) == seen + [key];
    } else {
      TrailAround(up, key, seen + [up[last]]);
      assert around + [up[last]] == [key] + (seen + [up[last]]);
    }
  }

  /** Exactly when a thread and its parent are filed under one root: the thread is its own parent,
    * or it is on no cycle and has at most 32 distinct ancestors. */
  lemma SharesRoot(up: Parents, key: Key)
    requires key in up
    ensures Root(up, key) == Root(up, up[key]) <==>
      up[key] == key || (key !in Trail(up, [up[key]]) && |Trail(up, [key])| <= ROOT_LEVELS + 1)
  {
    var parent := up[key];
    var mine, theirs := Trail(up, [key]), Trail(up, [parent]);
    TrailDistinct(up, [key]);
    if parent != key {
      assert [key] + [parent] == [key, parent];
      assert mine == Trail(up, [key, parent]);
      if key !in theirs {
        TrailBelow(up, key, [parent]);
        assert mine == [key] + theirs;
        if |theirs| > ROOT_LEVELS {
          assert mine[ROOT_LEVELS] != mine[ROOT_LEVELS + 1] && theirs[ROOT_LEVELS] == mine[ROOT_LEVELS + 1];
        } else {
          assert mine[|theirs|] == theirs[|theirs| - 1];
        }
      } else {
        TrailAround(up, key, [parent]);
        assert theirs == mine[1..] + [key];
        var at := Min(|mine| - 1, ROOT_LEVELS);
        assert theirs[at] == (if at == |mine| - 1 then mine[0] else mine[at + 1]);
      }
    }
  }

  // ---- lens roots ----

  /** The resolver remembers the roots it found. */
  class LensRoots {
    const up: Parents
    var roots: map<Key, Key>

    ghost predicate Valid()
      reads this
    {
      forall k :: k in roots ==> roots[k] == Root(up, k)
    }

    constructor (up: Parents)
      ensures Valid() && this.up == up
    {
      this.up, roots := up, map[];
    }

    method RootOf(key: Key) returns (root: Key)
      requires Valid()
      modifies `roots
      ensures Valid() && root == Root(up, key)
    {
      if key in roots {
        return roots[key];
      }
      root := key;
      var visited, depth := [key], 0;
      while depth < ROOT_LEVELS
        invariant depth <= ROOT_LEVELS && |visited| == depth + 1 && visited[depth] == root
        invariant Trail(up, visited) == Trail(up, [key])
      {
        if root !in up || up[root] in visited {
          break;
        }
        root := up[root];
        visited := visited + [root];
        depth := depth + 1;
      }
      roots := roots[key := root];
    }
  }

  // ---- the pinned and unpinned halves of a lens ----

  function Half(threads: seq<Thread>, up: Parents, byKey: map<Key, Thread>, eligible: Thread -> bool,
                pinned: bool): seq<Thread> {
    if threads == [] then []
    else
      var last := threads[|threads| - 1];
      var root := Root(up, last.key);
      Half(threads[..|threads| - 1], up, byKey, eligible, pinned)
      + (if last.ordinary && eligible(last) && (root in byKey && byKey[root].pinned) == pinned then [last] else [])
  }

  function Eligible(threads: seq<Thread>, eligible: Thread -> bool): seq<Thread> {
    if threads == [] then []
    else
      var last := threads[|threads| - 1];
      Eligible(threads[..|threads| - 1], eligible) + (if last.ordinary && eligible(last) then [last] else [])
  }

  /** By construction, a thread is in the half its root belongs to. */
  lemma {:induction false} HalvesPartition(threads: seq<Thread>, up: Parents, byKey: map<Key, Thread>,
                                           eligible: Thread -> bool)
    ensures multiset(Half(threads, up, byKey, eligible, true)) + multiset(Half(threads, up, byKey, eligible, false))
         == multiset(Eligible(threads, eligible))
    decreases |threads|
  {
    if threads != [] {
      HalvesPartition(threads[..|threads| - 1], up, byKey, eligible);
    }
  }

  lemma {:induction false} InHalf(threads: seq<Thread>, up: Parents, byKey: map<Key, Thread>,
                                  eligible: Thread -> bool, pinned: bool, t: Thread)
    ensures t in Half(threads, up, byKey, eligible, pinned) <==>
      && t in threads && t.ordinary && eligible(t)
      && (Root(up, t.key) in byKey && byKey[Root(up, t.key)].pinned) == pinned
    decreases |threads|
  {
    if threads != [] {
      InHalf(threads[..|threads| - 1], up, byKey, eligible, pinned, t);
      assert threads == threads[..|threads| - 1] + [threads[|threads| - 1]];
    }
  }

  /** The two halves hold every eligible thread once, and a subtree stays in one of them as long as its
    * parent chains are acyclic and within 32 levels. */
  lemma SubtreeStaysWhole(threads: seq<Thread>, up: Parents, byKey: map<Key, Thread>, eligible: Thread -> bool,
                          pinned: bool, child: Thread, parent: Thread)
    requires child in threads && parent in threads && child.ordinary && parent.ordinary && eligible(child)
      && eligible(parent)
    requires child.key in up && up[child.key] == parent.key
    requires child.key !in Trail(up, [parent.key]) && |Trail(up, [child.key])| <= ROOT_LEVELS + 1
    ensures child in Half(threads, up, byKey, eligible, pinned) <==>
      parent in Half(threads, up, byKey, eligible, pinned)
    ensures multiset(Half(threads, up, byKey, eligible, pinned)) + multiset(Half(threads, up, byKey, eligible, !pinned))
         == multiset(Eligible(threads, eligible))
  {
    HalvesPartition(threads, up, byKey, eligible);
    SharesRoot(up, child.key);
    InHalf(threads, up, byKey, eligible, pinned, child);
    InHalf(threads, up, byKey, eligible, pinned, parent);
  }

  /** In a cycle of two, each thread is filed under the other, so one pin tears them apart. */
  lemma TwoCycleIsTorn(a: Key, b: Key)
    requires a != b
    ensures Root(map[a := b, b := a], a) == b && Root(map[a := b, b := a], b) == a
  {
    var up := map[a := b, b := a];
    assert Trail(up, [a]) == Trail(up, [a] + [b]) && Trail(up, [b]) == Trail(up, [b] + [a]);
    assert [a] + [b] == [a, b] && [b] + [a] == [b, a];
    assert Trail(up, [a, b]) == [a, b] && Trail(up, [b, a]) == [b, a];
  }

  // ---- exact rows with ancestry ----

  /** `parents` steps up from `key`. */
  function Ancestor(up: Parents, key: Key, n: nat): Option<Key> {
    if n == 0 then Some(key)
    else
      match Ancestor(up, key, n - 1)
      case None => None
      case Some(k) => if k in up then Some(up[k]) else None
  }

  ghost predicate Above(up: Parents, key: Key, k: Key) {
    exists n: nat :: Ancestor(up, key, n) == Some(k)
  }

  ghost predicate OnCycle(up: Parents, key: Key) {
    exists n: nat :: n > 0 && Ancestor(up, key, n) == Some(key)
  }

  lemma {:induction false} AncestorOfParent(up: Parents, key: Key, n: nat)
    requires key in up
    ensures Ancestor(up, key, n + 1) == Ancestor(up, up[key], n)
  {
    if n > 0 {
      AncestorOfParent(up, key, n - 1);
    } else {
      assert Ancestor(up, key, 0) == Some(key);
    }
  }

  lemma AboveParent(up: Parents, key: Key, k: Key)
    requires key in up && Above(up, up[key], k)
    ensures Above(up, key, k)
  {
    var n: nat :| Ancestor(up, up[key], n) == Some(k);
    AncestorOfParent(up, key, n);
  }

  /** Every selected key has its parent before it, unless it is on a cycle; and no parent of a
    * selected key is missing, unless it is being added. */
  ghost predicate ParentsFirst(up: Parents, selected: seq<Key>, visiting: set<Key>) {
    && (forall i :: 0 <= i < |selected| && selected[i] in up ==>
         up[selected[i]] in selected[..i] || OnCycle(up, selected[i]))
    && (forall k :: k in selected && k in up ==> up[k] in selected || up[k] in visiting)
  }

  ghost predicate StepsUp(up: Parents, below: Key, above: Key) {
    below in up && up[below] == above
  }

  /** The keys being added, each the parent of the one before. */
  ghost predicate Climb(up: Parents, stack: seq<Key>) {
    forall i, j :: 0 <= i < j < |stack| && j == i + 1 ==> StepsUp(up, stack[i], stack[j])
  }

  lemma {:induction false} ClimbReaches(up: Parents, stack: seq<Key>, i: nat, j: nat)
    requires Climb(up, stack) && i <= j < |stack|
    ensures Ancestor(up, stack[i], j - i) == Some(stack[j])
    decreases j - i
  {
    if i < j {
      ClimbReaches(up, stack, i, j - 1);
      assert StepsUp(up, stack[j - 1], stack[j]);
    }
  }

  lemma ClosesCycle(up: Parents, stack: seq<Key>, key: Key)
    requires stack != [] && Climb(up, stack) && stack[|stack| - 1] == key && key in up && up[key] in stack
    ensures OnCycle(up, key)
  {
    var i :| 0 <= i < |stack| && stack[i] == up[key];
    ClimbReaches(up, stack, i, |stack| - 1);
    AncestorOfParent(up, key, |stack| - 1 - i);
    assert Ancestor(up, key, |stack| - i) == Some(key);
  }

  lemma Selects(up: Parents, selected: seq<Key>, visiting: set<Key>, key: Key)
    requires ParentsFirst(up, selected, visiting + {key}) && key !in visiting
    requires key in up ==> (up[key] in selected || (OnCycle(up, key) && up[key] in visiting + {key}))
    ensures ParentsFirst(up, selected + [key], visiting)
  {
    var after := selected + [key];
    forall i | 0 <= i < |after| && after[i] in up ensures up[after[i]] in after[..i] || OnCycle(up, after[i]) {
      if i < |selected| {
        assert after[..i] == selected[..i];
      } else {
        assert after[..i] == selected;
      }
    }
  }

  class AncestryWalk {
    const byKey: map<Key, Thread>
    const up: Parents
    const includeAncestry: bool
    /** The keys of the selected map, in insertion order. */
    var selected: seq<Key>
    var visiting: set<Key>

    ghost predicate Valid()
      reads this
    {
      && up.Keys <= byKey.Keys && up.Values <= byKey.Keys
      && visiting <= byKey.Keys && NoRepeats(selected)
      && (forall k :: k in selected ==> k in byKey && k !in visiting)
      && (includeAncestry ==> ParentsFirst(up, selected, visiting))
    }

    constructor (byKey: map<Key, Thread>, parentOf: Thread -> Option<Key>, includeAncestry: bool)
      ensures Valid() && selected == [] && visiting == {}
      ensures this.byKey == byKey && up == ParentsOf(byKey, parentOf) && this.includeAncestry == includeAncestry
    {
      this.byKey, this.up, this.includeAncestry := byKey, ParentsOf(byKey, parentOf), includeAncestry;
      selected, visiting := [], {};
    }

    /** `addWithAncestry`. It terminates on any parent relation: the keys being added only grow. */
    method Add(key: Key, ghost stack: seq<Key>)
      requires Valid() && key in byKey && (forall k :: k in stack <==> k in visiting) && Climb(up, stack + [key])
      modifies `selected, `visiting
      ensures Valid() && visiting == old(visiting) && old(selected) <= selected
      ensures key in selected || key in visiting
      ensures forall k :: k in selected && k !in old(selected) ==> k == key || (includeAncestry && Above(up, key, k))
      decreases byKey.Keys - visiting
    {
      hide ParentsFirst, Above, Climb, OnCycle;
      if key in selected || key in visiting {
        return;
      }
      ghost var path := stack + [key];
      StillFirst(up, selected, visiting, key);
      visiting := visiting + {key};
      if includeAncestry && key in up {
        NextStep(up, path);
        Add(up[key], path);
        forall k | k in selected && k !in old(selected) ensures Above(up, key, k) {
          SelfAbove(up, up[key]);
          AboveParent(up, key, k);
        }
        if up[key] !in selected {
          ClosesCycle(up, path, key);
        }
      }
      assert key !in selected;
      if includeAncestry {
        Selects(up, selected, visiting - {key}, key) by {
          assert visiting - {key} + {key} == visiting;
        }
      }
      assert visiting - {key} == old(visiting);
      selected := selected + [key];
      visiting := visiting - {key};
    }
  }

  lemma StillFirst(up: Parents, selected: seq<Key>, visiting: set<Key>, key: Key)
    ensures ParentsFirst(up, selected, visiting) ==> ParentsFirst(up, selected, visiting + {key})
  {
  }

  lemma NextStep(up: Parents, path: seq<Key>)
    requires path != [] && Climb(up, path) && path[|path| - 1] in up
    ensures Climb(up, path + [up[path[|path| - 1]]])
  {
    var after := path + [up[path[|path| - 1]]];
    forall i, j | 0 <= i < j < |after| && j == i + 1 ensures StepsUp(up, after[i], after[j]) {
      if j < |path| {
        assert StepsUp(up, path[i], path[j]);
      } else {
        assert after[i] == path[|path| - 1];
      }
    }
  }

  lemma SelfAbove(up: Parents, key: Key)
    ensures Above(up, key, key)
  {
    assert Ancestor(up, key, 0) == Some(key);
  }

  lemma {:induction false} AncestorsSelected(up: Parents, selected: seq<Key>, key: Key, n: nat)
    requires ParentsFirst(up, selected, {}) && key in selected && Ancestor(up, key, n).Some?
    ensures Ancestor(up, key, n).value in selected
  {
    if n > 0 {
      AncestorsSelected(up, selected, key, n - 1);
    }
  }

  /** What an `exact` query asks for by name. */
  ghost predicate Requested(byKey: map<Key, Thread>, identities: seq<Key>, key: Key) {
    key in byKey && key in identities[..Min(|identities|, 100)]
  }

  /** `selectQueryThreads` for an `exact` query: exactly the requested threads, with ancestry also
    * exactly their ancestors, each once; a parent comes before its child unless the child is on a
    * cycle. */
  method SelectExact(threads: seq<Thread>, identities: seq<Key>, includeAncestry: bool,
                     parentOf: Thread -> Option<Key>)
    returns (selected: seq<Key>)
    ensures var byKey, up := ByKey(threads), ParentsOf(ByKey(threads), parentOf);
      && NoRepeats(selected)
      && (forall k :: k in selected <==>
            Requested(byKey, identities, k)
            || (includeAncestry && exists r :: Requested(byKey, identities, r) && Above(up, r, k)))
      && (includeAncestry ==>
            forall i :: 0 <= i < |selected| && selected[i] in up ==>
              up[selected[i]] in selected[..i] || OnCycle(up, selected[i]))
  {
    hide Trail, ParentsOf, ByKey, Above, Climb, OnCycle;
    var walk := new AncestryWalk(ByKey(threads), parentOf, includeAncestry);
    var limit, i := Min(|identities|, MAX_IDENTITIES), 0;
    ghost var up := walk.up;
    while i < limit
      invariant fresh(walk) && walk.up == up == ParentsOf(ByKey(threads), parentOf) && walk.byKey == ByKey(threads)
      invariant walk.includeAncestry == includeAncestry
      invariant i <= limit && walk.Valid() && walk.visiting == {}
      invariant forall k :: k in identities[..i] && k in walk.byKey ==> k in walk.selected
      invariant forall k :: k in walk.selected ==>
        || Requested(walk.byKey, identities, k)
        || (includeAncestry && exists r :: Requested(walk.byKey, identities, r) && Above(up, r, k))
    {
      hide ParentsFirst;
      var key := identities[i];
      if key in walk.byKey {
        assert Requested(walk.byKey, identities, key) by { assert identities[..limit][i] == key; }
        OneStep(up, key);
        walk.Add(key, []);
      }
      i := i + 1;
    }
    selected := walk.selected;
    if includeAncestry {
      forall r, k | Requested(walk.byKey, identities, r) && Above(up, r, k) ensures k in selected {
        AllAboveSelected(up, selected, r, k);
      }
    }
  }

  lemma AllAboveSelected(up: Parents, selected: seq<Key>, key: Key, k: Key)
    requires ParentsFirst(up, selected, {}) && key in selected && Above(up, key, k)
    ensures k in selected
  {
    var n: nat :| Ancestor(up, key, n) == Some(k);
    AncestorsSelected(up, selected, key, n);
  }

  lemma OneStep(up: Parents, key: Key)
    ensures Climb(up, [] + [key])
  {
  }

  // ---- roots of ordinary chains ----

  /** A chain of parents, up to a thread that has none. */
  ghost predicate ToTheTop(up: Parents, chain: seq<Key>) {
    chain != [] && Climb(up, chain) && chain[|chain| - 1] !in up
  }

  lemma {:induction false} TrailIsChain(up: Parents, chain: seq<Key>, n: nat)
    requires ToTheTop(up, chain) && NoRepeats(chain) && 0 < n <= |chain|
    ensures Trail(up, chain[..n]) == chain
    decreases |chain| - n
  {
    var seen := chain[..n];
    if n < |chain| {
      assert StepsUp(up, chain[n - 1], chain[n]);
      assert seen[|seen| - 1] == chain[n - 1];
      forall i | 0 <= i < n ensures seen[i] != chain[n] { assert seen[i] == chain[i]; }
      assert seen + [chain[n]] == chain[..n + 1];
      TrailIsChain(up, chain, n + 1);
    } else {
      assert seen == chain;
    }
  }

  /** A thread at most 32 levels down is filed under the top of its chain, and one further down under its
    * ancestor 32 levels up. */
  lemma RootIs(up: Parents, chain: seq<Key>)
    requires ToTheTop(up, chain) && NoRepeats(chain)
    ensures Root(up, chain[0]) == if |chain| <= 33 then chain[|chain| - 1] else chain[32]
  {
    TrailIsChain(up, chain, 1);
    assert chain[..1] == [chain[0]];
  }

  /** The parent relation: a reference that names a thread of the inventory. */
  lemma ParentsAre(byKey: map<Key, Thread>, parentOf: Thread -> Option<Key>)
    ensures var up := ParentsOf(byKey, parentOf);
      forall k, parent :: k in up && up[k] == parent <==>
        k in byKey && parentOf(byKey[k]) == Some(parent) && parent in byKey
  {
  }
}
