/** The stable sort both owner-core modules rely on, by a three-way comparison. */
module StableSort {

  function Insert<T>(sorted: seq<T>, x: T, compare: (T, T) -> int): seq<T>
    decreases |sorted|
  {
    if sorted == [] then [x]
    else
      var last := |sorted| - 1;
      if compare(sorted[last], x) <= 0 then sorted + [x]
      else Insert(sorted[..last], x, compare) + [sorted[last]]
  }

  /** Equal elements keep their order: each one is inserted behind its equals. */
  function Sort<T>(xs: seq<T>, compare: (T, T) -> int): seq<T>
    decreases |xs|
  {
    if xs == [] then [] else Insert(Sort(xs[..|xs| - 1], compare), xs[|xs| - 1], compare)
  }

  lemma {:induction false} InsertPermutes<T>(sorted: seq<T>, x: T, compare: (T, T) -> int)
    ensures multiset(Insert(sorted, x, compare)) == multiset(sorted) + multiset{x}
    decreases |sorted|
  {
    if sorted != [] {
      var last := |sorted| - 1;
      assert sorted == sorted[..last] + [sorted[last]];
      InsertPermutes(sorted[..last], x, compare);
    }
  }

  lemma {:induction false} SortPermutes<T>(xs: seq<T>, compare: (T, T) -> int)
    ensures multiset(Sort(xs, compare)) == multiset(xs)
    ensures |Sort(xs, compare)| == |xs|
    ensures forall x :: x in Sort(xs, compare) <==> x in xs
    decreases |xs|
  {
    if xs != [] {
      var last := |xs| - 1;
      assert xs == xs[..last] + [xs[last]];
      SortPermutes(xs[..last], compare);
      InsertPermutes(Sort(xs[..last], compare), xs[last], compare);
    }
    assert |multiset(Sort(xs, compare))| == |multiset(xs)|;
    forall x ensures x in Sort(xs, compare) <==> x in xs {
      assert x in multiset(Sort(xs, compare)) <==> x in multiset(xs);
    }
  }

  /** What a comparison must satisfy for sorting to mean anything. */
  ghost predicate Consistent<T(!new)>(compare: (T, T) -> int) {
    && (forall a, b :: compare(a, b) <= 0 || compare(b, a) <= 0)
    && (forall a, b, c :: compare(a, b) <= 0 && compare(b, c) <= 0 ==> compare(a, c) <= 0)
  }

  ghost predicate Ordered<T>(xs: seq<T>, compare: (T, T) -> int) {
    forall i, j :: 0 <= i < j < |xs| ==> compare(xs[i], xs[j]) <= 0
  }

  lemma {:induction false} InsertOrdered<T(!new)>(sorted: seq<T>, x: T, compare: (T, T) -> int)
    requires Consistent(compare) && Ordered(sorted, compare)
    ensures Ordered(Insert(sorted, x, compare), compare)
    decreases |sorted|
  {
    if sorted != [] {
      var last := |sorted| - 1;
      if compare(sorted[last], x) <= 0 {
        forall i | 0 <= i < |sorted| ensures compare(sorted[i], x) <= 0 {
          assert i < last ==> compare(sorted[i], sorted[last]) <= 0;
        }
      } else {
        InsertOrdered(sorted[..last], x, compare);
        InsertPermutes(sorted[..last], x, compare);
        var front := Insert(sorted[..last], x, compare);
        forall i | 0 <= i < |front| ensures compare(front[i], sorted[last]) <= 0 {
          assert front[i] in multiset(front);
          assert front[i] in multiset(sorted[..last]) || front[i] == x;
          assert front[i] in sorted[..last] || front[i] == x;
        }
      }
    }
  }

  lemma {:induction false} SortOrdered<T(!new)>(xs: seq<T>, compare: (T, T) -> int)
    requires Consistent(compare)
    ensures Ordered(Sort(xs, compare), compare)
    decreases |xs|
  {
    if xs != [] {
      SortOrdered(xs[..|xs| - 1], compare);
      InsertOrdered(Sort(xs[..|xs| - 1], compare), xs[|xs| - 1], compare);
    }
  }

  /** What is in order already stays as it is, equal elements included. */
  lemma {:induction false} SortKeepsOrdered<T>(xs: seq<T>, compare: (T, T) -> int)
    requires Ordered(xs, compare)
    ensures Sort(xs, compare) == xs
    decreases |xs|
  {
    if xs != [] {
      SortKeepsOrdered(xs[..|xs| - 1], compare);
    }
  }
}
