/** The `group-members` walk of navigation-query-projection.ts: members of thread groups, children
  * first, within 32 levels. */
module GroupMembers {
  import opened Prelude

  const MAX_DEPTH := 32

  type Key = string

  /** A thread with its parent reference resolved against the complete inventory. */
  datatype Thread = Thread(key: Key, ordinary: bool, parent: Option<Key>, pinned: bool)

  /** `kids` lists the ordinary children of each key, in inventory order. */
  type Kids = map<Key, seq<Key>>

  function KidsOf(kids: Kids, key: Key): seq<Key> {
    if key in kids then kids[key] else []
  }

  function AddKid(kids: Kids, thread: Thread): Kids {
    if !thread.ordinary || thread.parent.None? then kids
    else kids[thread.parent.value := KidsOf(kids, thread.parent.value) + [thread.key]]
  }

  function AllKids(threads: seq<Thread>): Kids {
    if threads == [] then map[] else AddKid(AllKids(threads[..|threads| - 1]), threads[|threads| - 1])
  }

  /** `threadsByIdentity`: the last thread of each identity. */
  function ByKey(threads: seq<Thread>): map<Key, Thread> {
    if threads == [] then map[]
    else
      var last := threads[|threads| - 1];
      ByKey(threads[..|threads| - 1])[last.key := last]
  }

  predicate Listed(byKey: map<Key, Thread>, key: Key) {
    key in byKey && byKey[key].ordinary
  }

  /** The rows of a list of visited keys. */
  function RowsOf(byKey: map<Key, Thread>, order: seq<Key>): seq<Thread> {
    if order == [] then []
    else
      var last := order[|order| - 1];
      RowsOf(byKey, order[..|order| - 1]) + (if Listed(byKey, last) then [byKey[last]] else [])
  }

  // ---- paths ----

  ghost predicate Path(kids: Kids, p: seq<Key>) {
    p != [] && forall i, j :: 0 <= i < j < |p| && j == i + 1 ==> p[j] in KidsOf(kids, p[i])
  }

  ghost predicate PathFrom(kids: Kids, from: Key, p: seq<Key>) {
    Path(kids, p) && p[0] == from
  }

  ghost predicate Reaches(kids: Kids, from: Key, to: Key) {
    exists p :: PathFrom(kids, from, p) && p[|p| - 1] == to
  }

  ghost predicate Reachable(kids: Kids, roots: seq<Key>, key: Key) {
    exists i :: 0 <= i < |roots| && Reaches(kids, roots[i], key)
  }

  lemma Extend(kids: Kids, p: seq<Key>, kid: Key)
    requires Path(kids, p) && kid in KidsOf(kids, p[|p| - 1])
    ensures Path(kids, p + [kid])
  {
  }

  lemma ReachesSelf(kids: Kids, from: Key)
    ensures Reaches(kids, from, from)
  {
    assert PathFrom(kids, from, [from]);
  }

  lemma Below(kids: Kids, from: Key, kid: Key, to: Key)
    requires kid in KidsOf(kids, from) && Reaches(kids, kid, to)
    ensures Reaches(kids, from, to)
  {
    var p :| PathFrom(kids, kid, p) && p[|p| - 1] == to;
    var q := [from] + p;
    assert Path(kids, q) by {
      forall i, j | 0 <= i < j < |q| && j == i + 1 ensures q[j] in KidsOf(kids, q[i]) {
        if i > 0 { assert p[i] in KidsOf(kids, p[i - 1]); }
      }
    }
    assert PathFrom(kids, from, q);
  }

  // ---- what a walk has finished ----

  ghost predicate NoRepeats(order: seq<Key>) {
    forall i, j :: 0 <= i < j < |order| ==> order[i] != order[j]
  }

  /** Every key comes after all its children. */
  ghost predicate ChildrenFirst(kids: Kids, order: seq<Key>) {
    forall i, kid :: 0 <= i < |order| && kid in KidsOf(kids, order[i]) ==> kid in order[..i]
  }

  /** Where a walk entered each key: at its root, or one level below a parent of its own. */
  ghost predicate Placed(kids: Kids, entered: set<Key>, depths: map<Key, nat>, root: Key, depth: nat) {
    forall key :: key in entered ==>
      && key in depths && depths[key] <= MAX_DEPTH
      && (key != root ==> HasParent(kids, entered, depths, key))
      && (key == root ==> depths[key] == depth)
  }

  ghost predicate EnteredFrom(kids: Kids, entered: set<Key>, depths: map<Key, nat>, parent: Key, key: Key) {
    && parent in entered && key in KidsOf(kids, parent) && parent in depths && key in depths
    && depths[key] == depths[parent] + 1
  }

  ghost predicate HasParent(kids: Kids, entered: set<Key>, depths: map<Key, nat>, key: Key) {
    exists parent :: EnteredFrom(kids, entered, depths, parent, key)
  }

  /** A reason to give up below `stack`: a path that is too deep or closes a cycle. */
  ghost predicate Hopeless(kids: Kids, visited: set<Key>, p: seq<Key>) {
    && Path(kids, p) && (forall k :: k in p ==> k !in visited)
    && (|p| == MAX_DEPTH + 2 || p[|p| - 1] in p[..|p| - 1])
  }

  /** While `key` is open, each key finished below it was entered from it or from one of them. */
  ghost predicate PlacedBelow(kids: Kids, entered: set<Key>, depths: map<Key, nat>, key: Key, depth: nat) {
    forall k :: k in entered ==>
      && k in depths && depths[k] <= MAX_DEPTH
      && ((k in KidsOf(kids, key) && depths[k] == depth + 1) || HasParent(kids, entered, depths, k))
  }

  /** Finished keys keep the level they were entered at. */
  ghost predicate SameDepths(visited: set<Key>, was: map<Key, nat>, depths: map<Key, nat>) {
    forall k :: k in visited ==> (k in depths <==> k in was) && (k in depths ==> depths[k] == was[k])
  }

  lemma ParentStays(kids: Kids, entered: set<Key>, all: set<Key>, was: map<Key, nat>, depths: map<Key, nat>, key: Key)
    requires HasParent(kids, entered, was, key) && entered <= all && SameDepths(entered + {key}, was, depths)
    ensures HasParent(kids, all, depths, key)
  {
    var parent :| EnteredFrom(kids, entered, was, parent, key);
    assert EnteredFrom(kids, all, depths, parent, key);
  }

  lemma KidPlaced(kids: Kids, entered: set<Key>, added: set<Key>, was: map<Key, nat>, depths: map<Key, nat>, key: Key,
                  depth: nat, kid: Key)
    requires PlacedBelow(kids, entered, was, key, depth) && SameDepths(entered, was, depths)
    requires Placed(kids, added, depths, kid, depth + 1) && kid in KidsOf(kids, key)
    ensures PlacedBelow(kids, entered + added, depths, key, depth)
  {
    hide HasParent;
    var all := entered + added;
    forall k | k in all
      ensures k in depths && depths[k] <= MAX_DEPTH
      ensures (k in KidsOf(kids, key) && depths[k] == depth + 1) || HasParent(kids, all, depths, k)
    {
      if k in added {
        if k != kid {
          ParentStays(kids, added, all, depths, depths, k);
        }
      } else if !(k in KidsOf(kids, key) && was[k] == depth + 1) {
        ParentStays(kids, entered, all, was, depths, k);
      }
    }
  }

  lemma KeyIsParent(kids: Kids, entered: set<Key>, depths: map<Key, nat>, key: Key, kid: Key)
    requires EnteredFrom(kids, entered, depths, key, kid)
    ensures HasParent(kids, entered, depths, kid)
  {
  }

  lemma KeyPlaced(kids: Kids, entered: set<Key>, depths: map<Key, nat>, key: Key, depth: nat)
    requires PlacedBelow(kids, entered, depths, key, depth) && key !in entered && depth <= MAX_DEPTH
    ensures Placed(kids, entered + {key}, depths[key := depth], key, depth)
  {
    hide HasParent;
    var all, after := entered + {key}, depths[key := depth];
    forall k | k in entered ensures HasParent(kids, all, after, k) {
      if k in KidsOf(kids, key) && depths[k] == depth + 1 {
        KeyIsParent(kids, all, after, key, k);
      } else {
        ParentStays(kids, entered, all, depths, after, k);
      }
    }
  }

  lemma KeyFinished(kids: Kids, byKey: map<Key, Thread>, order: seq<Key>, key: Key)
    requires NoRepeats(order) && ChildrenFirst(kids, order) && key !in order
    requires forall kid :: kid in KidsOf(kids, key) ==> kid in order
    ensures NoRepeats(order + [key]) && ChildrenFirst(kids, order + [key])
    ensures RowsOf(byKey, order + [key]) == RowsOf(byKey, order) + (if Listed(byKey, key) then [byKey[key]] else [])
  {
    var after := order + [key];
    assert after[..|order|] == order;
    forall i, kid | 0 <= i < |after| && kid in KidsOf(kids, after[i]) ensures kid in after[..i] {
      if i < |order| {
        assert kid in order[..i] && order[..i] == after[..i];
      }
    }
  }

  class GroupWalk {
    const kids: Kids
    const byKey: map<Key, Thread>
    var result: seq<Thread>
    var visited: set<Key>
    var visiting: set<Key>
    /** The visited keys as they were finished, and the level each was entered at. */
    ghost var order: seq<Key>
    ghost var depths: map<Key, nat>

    ghost predicate Valid()
      reads this
    {
      && NoRepeats(order) && ChildrenFirst(kids, order)
      && (forall key :: key in visited <==> key in order)
      && visited !! visiting
      && result == RowsOf(byKey, order)
    }

    constructor (threads: seq<Thread>)
      ensures Valid() && visited == {} && visiting == {} && order == []
      ensures kids == AllKids(threads) && byKey == ByKey(threads)
    {
      kids, byKey := AllKids(threads), ByKey(threads);
      result, visited, visiting, order, depths := [], {}, {}, [], map[];
    }

    /** Visits one key at one level; `ok` is false when the walk gives up. */
    method Visit(key: Key, depth: nat, ghost stack: seq<Key>) returns (ok: bool, ghost bad: seq<Key>)
      requires Valid() && depth <= MAX_DEPTH + 1 && |stack| == depth
      requires (forall k :: k in stack <==> k in visiting) && Path(kids, stack + [key])
      modifies this
      ensures ok ==>
        Valid() && visiting == old(visiting) && old(order) <= order && old(visited) <= visited && key in visited
      ensures ok ==> SameDepths(old(visited), old(depths), depths)
      ensures ok ==> forall k :: k in visited - old(visited) ==> Reaches(kids, key, k)
      ensures ok ==> Placed(kids, visited - old(visited), depths, key, depth)
      ensures !ok ==> Hopeless(kids, old(visited), bad) && stack + [key] <= bad
      decreases MAX_DEPTH + 1 - depth
    {
      hide Path, Reaches, Placed, PlacedBelow, NoRepeats, ChildrenFirst, RowsOf, Hopeless, SameDepths;
      bad := stack + [key];
      ghost var before := visited;
      if key in visited {
        NothingPlaced(kids, depths, key, depth);
        assert visited - before == {};
        DepthsUntouched(visited, depths);
        return true, bad;
      }
      if key in visiting || depth > MAX_DEPTH {
        GivesUp(kids, visited, stack, key);
        return false, bad;
      }
      visiting := visiting + {key};
      var members, i := KidsOf(kids, key), 0;
      NothingPlaced(kids, depths, key, depth);
      assert visited - before == {};
      DepthsUntouched(visited, depths);
      while i < |members|
        invariant i <= |members| && Valid() && visiting == old(visiting) + {key}
        invariant old(order) <= order && before <= visited && key !in visited
        invariant SameDepths(before, old(depths), depths)
        invariant forall k :: k in members[..i] ==> k in visited
        invariant forall k :: k in visited - before ==> Reaches(kids, key, k)
        invariant PlacedBelow(kids, visited - before, depths, key, depth)
      {
        ghost var was, depthsWas := visited, depths;
        Extend(kids, stack + [key], members[i]);
        ok, bad := Visit(members[i], depth + 1, stack + [key]);
        if !ok {
          StillHopeless(kids, before, was, bad);
          return;
        }
        forall k | k in visited - was ensures Reaches(kids, key, k) {
          Below(kids, key, members[i], k);
        }
        DepthsStay(before, was, old(depths), depthsWas, depths);
        KidPlaced(kids, was - before, visited - was, depthsWas, depths, key, depth, members[i]);
        assert (was - before) + (visited - was) == visited - before;
        i := i + 1;
      }
      KeyPlaced(kids, visited - before, depths, key, depth);
      DepthSet(before, old(depths), depths, key, depth);
      KeyFinished(kids, byKey, order, key);
      ReachesSelf(kids, key);
      assert (visited - before) + {key} == visited + {key} - before;
      visiting := visiting - {key};
      visited := visited + {key};
      order := order + [key];
      depths := depths[key := depth];
      if key in byKey && byKey[key].ordinary {
        result := result + [byKey[key]];
      }
      ok := true;
    }
  }

  lemma DepthsUntouched(visited: set<Key>, depths: map<Key, nat>)
    ensures SameDepths(visited, depths, depths)
  {
  }

  lemma DepthsStay(before: set<Key>, was: set<Key>, d0: map<Key, nat>, d1: map<Key, nat>, d2: map<Key, nat>)
    requires before <= was && SameDepths(before, d0, d1) && SameDepths(was, d1, d2)
    ensures SameDepths(before, d0, d2) && SameDepths(was - before, d1, d2)
  {
  }

  lemma DepthSet(before: set<Key>, was: map<Key, nat>, depths: map<Key, nat>, key: Key, depth: nat)
    requires SameDepths(before, was, depths) && key !in before
    ensures SameDepths(before, was, depths[key := depth])
  {
  }

  lemma NothingPlaced(kids: Kids, depths: map<Key, nat>, key: Key, depth: nat)
    ensures Placed(kids, {}, depths, key, depth) && PlacedBelow(kids, {}, depths, key, depth)
  {
  }

  lemma GivesUp(kids: Kids, visited: set<Key>, stack: seq<Key>, key: Key)
    requires Path(kids, stack + [key]) && key !in visited && (forall k :: k in stack ==> k !in visited)
    requires key in stack || |stack| == MAX_DEPTH + 1
    ensures Hopeless(kids, visited, stack + [key])
  {
    assert (stack + [key])[..|stack|] == stack;
  }

  lemma StillHopeless(kids: Kids, before: set<Key>, visited: set<Key>, p: seq<Key>)
    requires Hopeless(kids, visited, p) && before <= visited
    ensures Hopeless(kids, before, p)
  {
  }

  // ---- the whole query ----

  /** Keys in the order they were finished: all that the roots reach, children first. */
  ghost predicate Group(kids: Kids, roots: seq<Key>, order: seq<Key>) {
    NoRepeats(order) && ChildrenFirst(kids, order) && forall k :: k in order <==> Reachable(kids, roots, k)
  }

  /** A path of more than 32 levels below a root, through nothing an earlier root reaches. A cycle
    * makes paths of every length. */
  ghost predicate TooDeep(kids: Kids, roots: seq<Key>) {
    exists i: nat, p :: DeepPath(kids, roots, i, p)
  }

  ghost predicate DeepPath(kids: Kids, roots: seq<Key>, i: nat, p: seq<Key>) {
    && i < |roots| && |p| == MAX_DEPTH + 2 && PathFrom(kids, roots[i], p)
    && forall k :: k in p ==> !Reachable(kids, roots[..i], k)
  }

  ghost predicate UniqueParents(kids: Kids) {
    forall a, b, k :: k in KidsOf(kids, a) && k in KidsOf(kids, b) ==> a == b
  }

  lemma PathStays(kids: Kids, order: seq<Key>, p: seq<Key>)
    requires ChildrenFirst(kids, order) && Path(kids, p) && p[0] in order
    ensures p[|p| - 1] in order
    decreases |p|
  {
    if |p| > 1 {
      PathStays(kids, order, p[..|p| - 1]);
      var i :| 0 <= i < |order| && order[i] == p[|p| - 2];
      assert p[|p| - 1] in KidsOf(kids, order[i]);
      assert p[|p| - 1] in order[..i];
    }
  }

  lemma ReachStays(kids: Kids, order: seq<Key>, from: Key, to: Key)
    requires ChildrenFirst(kids, order) && from in order && Reaches(kids, from, to)
    ensures to in order
  {
    var p :| PathFrom(kids, from, p) && p[|p| - 1] == to;
    PathStays(kids, order, p);
  }

  lemma MoreRoots(kids: Kids, roots: seq<Key>, i: nat, k: Key)
    requires i < |roots|
    ensures Reachable(kids, roots[..i + 1], k) <==> Reachable(kids, roots[..i], k) || Reaches(kids, roots[i], k)
  {
    hide Reaches;
    if Reachable(kids, roots[..i], k) {
      var j :| 0 <= j < i && Reaches(kids, roots[..i][j], k);
      assert roots[..i + 1][j] == roots[..i][j];
    }
    if Reaches(kids, roots[i], k) {
      assert roots[..i + 1][i] == roots[i];
    }
    if Reachable(kids, roots[..i + 1], k) {
      var j :| 0 <= j < i + 1 && Reaches(kids, roots[..i + 1][j], k);
      if j < i { assert roots[..i][j] == roots[..i + 1][j]; }
    }
  }

  lemma {:induction false} Lengthen(kids: Kids, p: seq<Key>, n: nat) returns (q: seq<Key>)
    requires Path(kids, p) && (n <= |p| || p[|p| - 1] in p[..|p| - 1]) && n > 0
    ensures Path(kids, q) && |q| == n && q[0] == p[0] && forall k :: k in q ==> k in p
    decreases n
  {
    if n <= |p| {
      q := p[..n];
    } else {
      var shorter := Lengthen(kids, p, n - 1);
      assert shorter[n - 2] in shorter;
      var at :| 0 <= at < |p| && p[at] == shorter[n - 2];
      if at == |p| - 1 {
        at :| 0 <= at < |p| - 1 && p[at] == p[|p| - 1];
      }
      assert p[at + 1] in KidsOf(kids, p[at]);
      q := shorter + [p[at + 1]];
    }
  }

  /** The walk gave up below root `i`, so there is a path it could not follow to the end. */
  lemma HopelessIsDeep(kids: Kids, roots: seq<Key>, i: nat, visited: set<Key>, bad: seq<Key>)
    requires i < |roots| && Hopeless(kids, visited, bad) && bad[0] == roots[i]
    requires forall k :: Reachable(kids, roots[..i], k) ==> k in visited
    ensures TooDeep(kids, roots)
  {
    var q := Lengthen(kids, bad, MAX_DEPTH + 2);
    assert DeepPath(kids, roots, i, q);
  }

  /** Along a path, keys were finished in the opposite order, so no path returns to its start. */
  lemma {:induction false} NoReturn(kids: Kids, order: seq<Key>, p: seq<Key>, i: nat)
    requires NoRepeats(order) && ChildrenFirst(kids, order) && Path(kids, p) && |p| > 1
    requires i < |order| && order[i] == p[0]
    ensures p[|p| - 1] in order[..i]
    decreases |p|
  {
    assert p[1] in KidsOf(kids, order[i]);
    assert p[1] in order[..i];
    var j :| 0 <= j < i && order[j] == p[1];
    if |p| > 2 {
      assert p[1..][|p| - 2] == p[|p| - 1];
      assert Path(kids, p[1..]) by {
        forall a, b | 0 <= a < b < |p| - 1 && b == a + 1 ensures p[1..][b] in KidsOf(kids, p[1..][a]) {
          assert p[b + 1] in KidsOf(kids, p[a + 1]);
        }
      }
      NoReturn(kids, order, p[1..], j);
    }
  }

  /** With one parent per key, a path that the walk entered at its root is as long as the level of
    * its end, so none of them is too long. */
  lemma {:induction false} LevelIsLength(kids: Kids, order: seq<Key>, entered: set<Key>, depths: map<Key, nat>,
                                         root: Key, p: seq<Key>)
    requires UniqueParents(kids) && NoRepeats(order) && ChildrenFirst(kids, order) && root in order
    requires Placed(kids, entered, depths, root, 0) && PathFrom(kids, root, p) && forall k :: k in p ==> k in entered
    ensures p[|p| - 1] in depths && depths[p[|p| - 1]] == |p| - 1
    decreases |p|
  {
    var last := p[|p| - 1];
    assert last in entered;
    if |p| > 1 {
      var shorter := p[..|p| - 1];
      LevelIsLength(kids, order, entered, depths, root, shorter);
      var i :| 0 <= i < |order| && order[i] == root;
      NoReturn(kids, order, p, i);
      assert last != root;
      var parent :| EnteredFrom(kids, entered, depths, parent, last);
      assert last in KidsOf(kids, p[|p| - 2]);
      assert parent == p[|p| - 2] == shorter[|shorter| - 1];
    }
  }

  lemma NotTooDeep(kids: Kids, roots: seq<Key>, i: nat, order: seq<Key>, before: set<Key>, visited: set<Key>,
                   depths: map<Key, nat>, p: seq<Key>)
    requires UniqueParents(kids) && i < |roots| && NoRepeats(order) && ChildrenFirst(kids, order)
    requires (forall k :: k in visited <==> k in order) && roots[i] in order
    requires forall k :: k in before <==> Reachable(kids, roots[..i], k)
    requires Placed(kids, visited - before, depths, roots[i], 0)
    ensures !DeepPath(kids, roots, i, p)
  {
    if DeepPath(kids, roots, i, p) {
      forall k | k in p ensures k in visited - before {
        var j :| 0 <= j < |p| && p[j] == k;
        assert PathFrom(kids, roots[i], p[..j + 1]);
        PathStays(kids, order, p[..j + 1]);
      }
      assert p[|p| - 1] in p;
      LevelIsLength(kids, order, visited - before, depths, roots[i], p);
    }
  }

  ghost predicate NoneTooDeep(kids: Kids, roots: seq<Key>, n: nat) {
    forall j: nat, p :: j < n ==> !DeepPath(kids, roots, j, p)
  }

  /** `selectQueryThreads` for a `group-members` query: it lists each ordinary thread its roots
    * reach, once and after all its children, or throws. It throws only on a path that is too deep,
    * and with one parent per thread on exactly those. */
  method SelectGroup(threads: seq<Thread>, roots: seq<Key>) returns (rows: Option<seq<Thread>>)
    ensures rows.Some? ==>
      exists order :: Group(AllKids(threads), roots, order) && rows.value == RowsOf(ByKey(threads), order)
    ensures rows.None? ==> TooDeep(AllKids(threads), roots)
    ensures UniqueParents(AllKids(threads)) && rows.Some? ==> !TooDeep(AllKids(threads), roots)
  {
    hide Path, Placed, NoRepeats, ChildrenFirst, RowsOf, Hopeless, DeepPath, UniqueParents;
    hide Reaches, Reachable, AllKids, ByKey;
    var walk := new GroupWalk(threads);
    var i := 0;
    NoRoots(walk.kids, roots);
    while i < |roots|
      invariant fresh(walk)
      invariant i <= |roots| && walk.Valid() && walk.visiting == {} && walk.kids == AllKids(threads)
        && walk.byKey == ByKey(threads)
      invariant forall k :: k in walk.visited <==> Reachable(walk.kids, roots[..i], k)
      invariant UniqueParents(walk.kids) ==> NoneTooDeep(walk.kids, roots, i)
    {
      ghost var before, orderWas := walk.visited, walk.order;
      OnePath(walk.kids, roots[i]);
      assert [] + [roots[i]] == [roots[i]];
      var ok, bad := walk.Visit(roots[i], 0, []);
      if !ok {
        assert bad[0] == roots[i];
        HopelessIsDeep(walk.kids, roots, i, before, bad);
        return None;
      }
      forall k ensures k in walk.visited <==> Reachable(walk.kids, roots[..i + 1], k) {
        MoreRoots(walk.kids, roots, i, k);
        if Reaches(walk.kids, roots[i], k) {
          ReachStays(walk.kids, walk.order, roots[i], k);
        }
      }
      if UniqueParents(walk.kids) {
        forall j: nat, p | j < i + 1 ensures !DeepPath(walk.kids, roots, j, p) {
          if j == i {
            NotTooDeep(walk.kids, roots, i, walk.order, before, walk.visited, walk.depths, p);
          }
        }
      }
      i := i + 1;
    }
    assert roots[..i] == roots;
    assert Group(walk.kids, roots, walk.order);
    if UniqueParents(walk.kids) {
      AllShallow(walk.kids, roots);
    }
    rows := Some(walk.result);
  }

  lemma NoRoots(kids: Kids, roots: seq<Key>)
    ensures forall k :: !Reachable(kids, roots[..0], k)
  {
  }

  lemma OnePath(kids: Kids, key: Key)
    ensures Path(kids, [key])
  {
  }

  lemma AllShallow(kids: Kids, roots: seq<Key>)
    requires NoneTooDeep(kids, roots, |roots|)
    ensures !TooDeep(kids, roots)
  {
    forall i: nat, p ensures !DeepPath(kids, roots, i, p) {
      if i < |roots| {
        assert NoneTooDeep(kids, roots, |roots|);
      }
    }
  }

  // ---- what the rows are ----

  lemma {:induction false} ByKeyFacts(threads: seq<Thread>, k: Key)
    ensures k in ByKey(threads) <==> exists t :: t in threads && t.key == k
    ensures k in ByKey(threads) ==> ByKey(threads)[k] in threads && ByKey(threads)[k].key == k
    decreases |threads|
  {
    if threads != [] {
      var front, last := threads[..|threads| - 1], threads[|threads| - 1];
      ByKeyFacts(front, k);
      assert threads == front + [last];
    }
  }

  lemma {:induction false} RowsListed(byKey: map<Key, Thread>, order: seq<Key>)
    requires forall k :: k in byKey ==> byKey[k].key == k
    ensures forall t :: t in RowsOf(byKey, order) <==> t.key in order && Listed(byKey, t.key) && t == byKey[t.key]
    decreases |order|
  {
    if order != [] {
      var front, last := order[..|order| - 1], order[|order| - 1];
      assert order == front + [last];
      RowsListed(byKey, front);
    }
  }

  /** No thread twice, and none before one of its children. */
  ghost predicate ChildrenFirstRows(kids: Kids, rows: seq<Thread>) {
    && (forall a, b :: 0 <= a < b < |rows| ==> rows[a].key != rows[b].key)
    && (forall a, b :: 0 <= a <= b < |rows| ==> rows[b].key !in KidsOf(kids, rows[a].key))
  }

  lemma RowAppended(kids: Kids, rows: seq<Thread>, t: Thread)
    requires ChildrenFirstRows(kids, rows) && t.key !in KidsOf(kids, t.key)
    requires forall r :: r in rows ==> r.key != t.key && t.key !in KidsOf(kids, r.key)
    ensures ChildrenFirstRows(kids, rows + [t])
  {
  }

  lemma {:induction false} RowsOrdered(kids: Kids, byKey: map<Key, Thread>, order: seq<Key>)
    requires forall k :: k in byKey ==> byKey[k].key == k
    requires NoRepeats(order) && ChildrenFirst(kids, order)
    ensures ChildrenFirstRows(kids, RowsOf(byKey, order))
    decreases |order|
  {
    if order != [] {
      var front, last := order[..|order| - 1], order[|order| - 1];
      FrontOrdered(kids, order);
      RowsOrdered(kids, byKey, front);
      RowsListed(byKey, front);
      forall r | r in RowsOf(byKey, front) ensures r.key != last && last !in KidsOf(kids, r.key) {
        NotKidOfEarlier(kids, order, r.key);
      }
      if Listed(byKey, last) {
        RowAppended(kids, RowsOf(byKey, front), byKey[last]);
      }
    }
  }

  lemma FrontOrdered(kids: Kids, order: seq<Key>)
    requires NoRepeats(order) && ChildrenFirst(kids, order) && order != []
    ensures NoRepeats(order[..|order| - 1]) && ChildrenFirst(kids, order[..|order| - 1])
    ensures order[|order| - 1] !in KidsOf(kids, order[|order| - 1])
  {
    var front, last := order[..|order| - 1], order[|order| - 1];
    forall i, kid | 0 <= i < |front| && kid in KidsOf(kids, front[i]) ensures kid in front[..i] {
      assert order[i] == front[i] && order[..i] == front[..i];
    }
    assert forall kid :: kid in KidsOf(kids, order[|order| - 1]) ==> kid in front;
  }

  lemma NotKidOfEarlier(kids: Kids, order: seq<Key>, key: Key)
    requires NoRepeats(order) && ChildrenFirst(kids, order) && order != [] && key in order[..|order| - 1]
    ensures key != order[|order| - 1] && order[|order| - 1] !in KidsOf(kids, key)
  {
    var i :| 0 <= i < |order| - 1 && order[i] == key;
    assert forall kid :: kid in KidsOf(kids, order[i]) ==> kid in order[..i];
  }

  /** The rows of a group: the listed threads its roots reach, each once, and each after all its
    * children. */
  lemma GroupRows(threads: seq<Thread>, roots: seq<Key>, order: seq<Key>)
    requires Group(AllKids(threads), roots, order)
    ensures var kids, byKey, rows := AllKids(threads), ByKey(threads), RowsOf(ByKey(threads), order);
      && (forall t :: t in rows <==> Reachable(kids, roots, t.key) && t.ordinary && t.key in byKey && t == byKey[t.key])
      && ChildrenFirstRows(kids, rows)
  {
    forall k | k in ByKey(threads) ensures ByKey(threads)[k].key == k {
      ByKeyFacts(threads, k);
    }
    RowsListed(ByKey(threads), order);
    RowsOrdered(AllKids(threads), ByKey(threads), order);
  }

  lemma {:induction false} KidIsThread(threads: seq<Thread>, parent: Key, kid: Key)
    ensures kid in KidsOf(AllKids(threads), parent) <==>
      exists t :: t in threads && t.ordinary && t.parent == Some(parent) && t.key == kid
    decreases |threads|
  {
    if threads != [] {
      var front, last := threads[..|threads| - 1], threads[|threads| - 1];
      KidIsThread(front, parent, kid);
      assert threads == front + [last];
    }
  }

  /** Unique identities give every thread one parent. */
  lemma OneParentEach(threads: seq<Thread>)
    requires forall a, b :: a in threads && b in threads && a.key == b.key ==> a == b
    ensures UniqueParents(AllKids(threads))
  {
    var kids := AllKids(threads);
    forall a, b, k | k in KidsOf(kids, a) && k in KidsOf(kids, b) ensures a == b {
      KidIsThread(threads, a, k);
      KidIsThread(threads, b, k);
    }
  }

  /** A group whose reachable part has a cycle cannot be listed. */
  lemma CycleIsRefused(kids: Kids, roots: seq<Key>, order: seq<Key>, cycle: seq<Key>)
    requires Path(kids, cycle) && |cycle| > 1 && cycle[|cycle| - 1] == cycle[0] && Reachable(kids, roots, cycle[0])
    ensures !Group(kids, roots, order)
  {
    if Group(kids, roots, order) {
      var i :| 0 <= i < |order| && order[i] == cycle[0];
      NoReturn(kids, order, cycle, i);
      assert false;
    }
  }

  // ---- the order of the roots matters ----

  /** A chain: each key but the first is the only child of the one before. */
  function ChainOf(keys: seq<Key>): seq<Thread> {
    seq(|keys|, i requires 0 <= i < |keys| => Thread(keys[i], true, if i == 0 then None else Some(keys[i - 1]), false))
  }

  lemma ChainKids(keys: seq<Key>, parent: Key, kid: Key)
    requires NoRepeats(keys)
    ensures kid in KidsOf(AllKids(ChainOf(keys)), parent) <==>
      exists i :: 0 < i < |keys| && keys[i] == kid && keys[i - 1] == parent
  {
    var threads := ChainOf(keys);
    KidIsThread(threads, parent, kid);
    forall i | 0 < i < |keys| && keys[i] == kid && keys[i - 1] == parent
      ensures kid in KidsOf(AllKids(threads), parent)
    {
      assert threads[i] in threads;
    }
  }

  /** From the first key of a chain there is only the chain to follow. */
  lemma {:induction false} ChainPath(keys: seq<Key>, p: seq<Key>, n: nat)
    requires NoRepeats(keys) && keys != [] && PathFrom(AllKids(ChainOf(keys)), keys[0], p) && n < |p|
    ensures n < |keys| && p[n] == keys[n]
  {
    if n > 0 {
      ChainPath(keys, p, n - 1);
      ChainKids(keys, p[n - 1], p[n]);
    }
  }

  lemma ChainIsPath(keys: seq<Key>)
    requires NoRepeats(keys) && keys != []
    ensures PathFrom(AllKids(ChainOf(keys)), keys[0], keys)
  {
    forall i, j | 0 <= i < j < |keys| && j == i + 1 ensures keys[j] in KidsOf(AllKids(ChainOf(keys)), keys[i]) {
      ChainKids(keys, keys[i], keys[j]);
    }
  }

  /** The last key of a chain has no children. */
  lemma ChainEnds(keys: seq<Key>, p: seq<Key>)
    requires NoRepeats(keys) && keys != [] && PathFrom(AllKids(ChainOf(keys)), keys[|keys| - 1], p)
    ensures |p| == 1
  {
    if |p| > 1 {
      ChainKids(keys, p[0], p[1]);
    }
  }

  /** A chain one level deeper than allowed is listed when its last thread is the first root, and
    * refused when its first thread is. */
  lemma RootOrderMatters(keys: seq<Key>)
    requires NoRepeats(keys) && |keys| == 34
    ensures var kids, first, last := AllKids(ChainOf(keys)), keys[0], keys[|keys| - 1];
      && UniqueParents(kids) && PathFrom(kids, first, keys)
      && !TooDeep(kids, [last, first]) && TooDeep(kids, [first, last])
  {
    var kids, first, last := AllKids(ChainOf(keys)), keys[0], keys[|keys| - 1];
    OneParentEach(ChainOf(keys));
    ChainIsPath(keys);
    assert DeepPath(kids, [first, last], 0, keys) by {
      NoRoots(kids, [first, last]);
    }
    assert Reachable(kids, [last, first][..1], last) by {
      ReachesSelf(kids, last);
      assert [last, first][..1][0] == last;
    }
    hide AllKids, KidsOf, UniqueParents, Path;
    forall i: nat, p ensures !DeepPath(kids, [last, first], i, p) {
      if DeepPath(kids, [last, first], i, p) {
        if i == 0 {
          ChainEnds(keys, p);
        } else {
          ChainPath(keys, p, MAX_DEPTH + 1);
        }
      }
    }
  }

  /** Of several threads with one identity, the last one counts. */
  lemma {:induction false} LastOfIdentity(threads: seq<Thread>, i: nat)
    requires i < |threads| && forall j :: i < j < |threads| ==> threads[j].key != threads[i].key
    ensures threads[i].key in ByKey(threads) && ByKey(threads)[threads[i].key] == threads[i]
    decreases |threads|
  {
    if i < |threads| - 1 {
      LastOfIdentity(threads[..|threads| - 1], i);
    }
  }

  function KeysUnder(threads: seq<Thread>, parent: Key): seq<Key> {
    if threads == [] then []
    else
      var last := threads[|threads| - 1];
      KeysUnder(threads[..|threads| - 1], parent) + (if last.ordinary && last.parent == Some(parent) then [last.key]
        else [])
  }

  /** Children are visited in the order of the inventory. */
  lemma {:induction false} KidsInOrder(threads: seq<Thread>, parent: Key)
    ensures KidsOf(AllKids(threads), parent) == KeysUnder(threads, parent)
    decreases |threads|
  {
    if threads != [] {
      KidsInOrder(threads[..|threads| - 1], parent);
    }
  }
}
