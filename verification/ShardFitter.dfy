/** Ordered test groups in weighted lanes: `allocate` and `fit` of fit-desktop-e2e-shards.py, with
  * exact durations. */
module ShardFitter {
  import opened Prelude

  datatype Group = Group(count: nat, seconds: seq<real>)

  /** What `main` demands of its data before it calls either. */
  ghost predicate Measured(groups: seq<Group>, platforms: nat) {
    forall g :: g in groups ==>
      g.count > 0 && |g.seconds| == platforms && forall p :: 0 <= p < platforms ==> g.seconds[p] >= 0.0
  }

  function Sum(xs: seq<nat>, n: nat): nat
    requires n <= |xs|
  {
    if n == 0 then 0 else Sum(xs, n - 1) + xs[n - 1]
  }

  /** Tests in the first `n` groups. */
  function Count(groups: seq<Group>, n: nat): nat
    requires n <= |groups|
  {
    if n == 0 then 0 else Count(groups, n - 1) + groups[n - 1].count
  }

  // ---- where weights put the lane boundaries ----

  function Floors(weights: seq<nat>, count: nat): (floors: seq<nat>)
    requires Sum(weights, |weights|) > 0
    ensures |floors| == |weights|
  {
    seq(|weights|, i requires 0 <= i < |weights| => Floor(weights[i], count, Sum(weights, |weights|)))
  }

  function Floor(weight: nat, count: nat, total: nat): (size: nat)
    requires total > 0
    ensures size * total <= weight * count < size * total + total
  {
    assert weight * count >= 0;
    weight * count / total
  }

  /** Rounded-down shares, with what is left over given to the first lanes. */
  function Sizes(weights: seq<nat>, count: nat): (sizes: seq<nat>)
    requires Sum(weights, |weights|) > 0
    ensures |sizes| == |weights|
  {
    var floors := Floors(weights, count);
    seq(|weights|, i requires 0 <= i < |weights| => floors[i] + (if i < count - Sum(floors, |floors|) then 1 else 0))
  }

  /** The first group that starts at or after test `end`. */
  function Cut(groups: seq<Group>, end: nat, n: nat): (cut: nat)
    requires n <= |groups|
    ensures cut <= n
  {
    if n == 0 then 0 else if Count(groups, n - 1) < end then n else Cut(groups, end, n - 1)
  }

  /** The boundary after `k` lanes. */
  function Edge(groups: seq<Group>, sizes: seq<nat>, k: nat): nat
    requires k <= |sizes|
  {
    Cut(groups, Sum(sizes, k), |groups|)
  }

  lemma {:induction false} CountGrows(groups: seq<Group>, platforms: nat, i: nat, j: nat)
    requires Measured(groups, platforms) && i <= j <= |groups|
    ensures Count(groups, i) + (j - i) <= Count(groups, j)
    decreases j - i
  {
    if i < j {
      CountGrows(groups, platforms, i, j - 1);
      assert groups[j - 1] in groups;
    }
  }

  lemma {:induction false} SumGrows(xs: seq<nat>, i: nat, j: nat)
    requires i <= j <= |xs|
    ensures Sum(xs, i) <= Sum(xs, j)
    decreases j - i
  {
    if i < j {
      SumGrows(xs, i, j - 1);
    }
  }

  lemma {:induction false} CutIs(groups: seq<Group>, platforms: nat, end: nat, n: nat, j: nat)
    requires Measured(groups, platforms) && j < n <= |groups|
    ensures Count(groups, j) < end <==> j < Cut(groups, end, n)
  {
    if Count(groups, n - 1) < end {
      CountGrows(groups, platforms, j, n - 1);
    } else if j < n - 1 {
      CutIs(groups, platforms, end, n - 1, j);
    }
  }

  lemma EdgesGrow(groups: seq<Group>, platforms: nat, sizes: seq<nat>, i: nat, j: nat)
    requires Measured(groups, platforms) && i <= j <= |sizes|
    ensures Edge(groups, sizes, i) <= Edge(groups, sizes, j)
  {
    SumGrows(sizes, i, j);
    var at := Edge(groups, sizes, i);
    if at > 0 {
      CutIs(groups, platforms, Sum(sizes, i), |groups|, at - 1);
      CutIs(groups, platforms, Sum(sizes, j), |groups|, at - 1);
    }
  }

  /** The shares round down to at most the count and lose less than one test a lane. */
  lemma {:induction false} FloorsSum(weights: seq<nat>, count: nat, k: nat)
    requires Sum(weights, |weights|) > 0 && k <= |weights|
    ensures var total, floors := Sum(weights, |weights|), Floors(weights, count);
      && Sum(floors, k) * total <= Sum(weights, k) * count
      && Sum(weights, k) * count <= Sum(floors, k) * total + k * total
      && (k > 0 ==> Sum(weights, k) * count < Sum(floors, k) * total + k * total)
  {
    if k > 0 {
      FloorsSum(weights, count, k - 1);
      var total, floors := Sum(weights, |weights|), Floors(weights, count);
      Spread(Sum(floors, k - 1), floors[k - 1], total);
      Spread(Sum(weights, k - 1), weights[k - 1], count);
      Spread(k - 1, 1, total);
    }
  }

  lemma Spread(a: int, b: int, c: int)
    ensures (a + b) * c == a * c + b * c
  {
  }

  lemma {:induction false} AtLeastOnce(d: nat, c: nat)
    requires d > 0
    ensures d * c >= c
  {
    if d > 1 {
      AtLeastOnce(d - 1, c);
      Spread(d - 1, 1, c);
    }
  }

  lemma Cancel(a: int, b: int, c: int)
    requires c > 0
    ensures a * c <= b * c ==> a <= b
    ensures a * c < b * c ==> a < b
  {
    if a > b {
      Spread(b, a - b, c);
      AtLeastOnce(a - b, c);
    }
  }

  /** So the remainder never runs out of lanes. */
  lemma Remainder(weights: seq<nat>, count: nat)
    requires Sum(weights, |weights|) > 0
    ensures var floors := Floors(weights, count); Sum(floors, |weights|) <= count < Sum(floors, |weights|) + |weights|
  {
    var n := |weights|;
    var total, floored := Sum(weights, n), Sum(Floors(weights, count), n);
    FloorsSum(weights, count, n);
    assert n > 0;
    hide Floors, Sum;
    Spread(floored, n, total);
    Cancel(floored, count, total);
    Cancel(count, floored + n, total);
  }

  lemma {:induction false} SizesSum(weights: seq<nat>, count: nat, k: nat)
    requires Sum(weights, |weights|) > 0 && k <= |weights|
    ensures var floors, sizes := Floors(weights, count), Sizes(weights, count);
      Sum(floors, |floors|) <= count && Sum(sizes, k) == Sum(floors, k) + Min(k, count - Sum(floors, |floors|))
  {
    Remainder(weights, count);
    if k > 0 {
      SizesSum(weights, count, k - 1);
    }
  }

  lemma SizesAddUp(weights: seq<nat>, count: nat)
    requires Sum(weights, |weights|) > 0
    ensures Sum(Sizes(weights, count), |weights|) == count
  {
    hide Floors, Sizes, Sum;
    SizesSum(weights, count, |weights|);
    Remainder(weights, count);
  }

  // ---- allocate ----

  /** Consecutive groups between consecutive boundaries. */
  function Lanes(groups: seq<Group>, sizes: seq<nat>): seq<seq<Group>> {
    seq(|sizes|, k requires 0 <= k < |sizes| =>
      if Edge(groups, sizes, k) <= Edge(groups, sizes, k + 1)
      then groups[Edge(groups, sizes, k)..Edge(groups, sizes, k + 1)] else [])
  }

  function Allocation(groups: seq<Group>, weights: seq<nat>): seq<seq<Group>>
    requires Sum(weights, |weights|) > 0
  {
    Lanes(groups, Sizes(weights, Count(groups, |groups|)))
  }

  /** The part of a lane that the first `n` groups fill. */
  function Filled(groups: seq<Group>, sizes: seq<nat>, k: nat, n: nat): seq<Group>
    requires n <= |groups| && k < |sizes|
  {
    var from, to := Min(Edge(groups, sizes, k), n), Min(Edge(groups, sizes, k + 1), n);
    if from <= to then groups[from..to] else []
  }

  method Allocate(groups: seq<Group>, weights: seq<nat>, ghost platforms: nat) returns (lanes: seq<seq<Group>>)
    requires Measured(groups, platforms) && Sum(weights, |weights|) > 0
    ensures lanes == Allocation(groups, weights)
  {
    var count, total, i := 0, 0, 0;
    while i < |groups|
      invariant i <= |groups| && count == Count(groups, i)
    {
      count, i := count + groups[i].count, i + 1;
    }
    i := 0;
    while i < |weights|
      invariant i <= |weights| && total == Sum(weights, i)
    {
      total, i := total + weights[i], i + 1;
    }
    var sizes, given := [], 0;
    ghost var floors := Floors(weights, count);
    i := 0;
    while i < |weights|
      invariant i <= |weights| && |sizes| == i && given == Sum(floors, i)
      invariant forall k :: 0 <= k < i ==> sizes[k] == floors[k]
    {
      sizes, given, i := sizes + [Floor(weights[i], count, total)], given + Floor(weights[i], count, total), i + 1;
    }
    Remainder(weights, count);
    i := 0;
    while i < count - given
      invariant 0 <= i <= count - given < |sizes| == |weights|
      invariant forall k :: 0 <= k < |sizes| ==> sizes[k] == floors[k] + (if k < i then 1 else 0)
    {
      sizes := sizes[i := sizes[i] + 1];
      i := i + 1;
    }
    assert sizes == Sizes(weights, count);
    SizesAddUp(weights, count);
    lanes := Distribute(groups, sizes, platforms);
  }

  /** Each group goes to the first lane whose boundary it starts before. */
  method Distribute(groups: seq<Group>, sizes: seq<nat>, ghost platforms: nat) returns (lanes: seq<seq<Group>>)
    requires Measured(groups, platforms) && Sum(sizes, |sizes|) == Count(groups, |groups|)
    ensures lanes == Lanes(groups, sizes)
  {
    var boundaries, k, sum := [], 0, 0;
    while k < |sizes|
      invariant k <= |sizes| && |boundaries| == k && sum == Sum(sizes, k)
      invariant forall i :: 0 <= i < k ==> boundaries[i] == Sum(sizes, i + 1)
    {
      sum := sum + sizes[k];
      boundaries, k := boundaries + [sum], k + 1;
    }
    lanes := seq(|sizes|, _ => []);
    FilledEnds(groups, sizes);
    var position, j := 0, 0;
    while j < |groups|
      invariant j <= |groups| && position == Count(groups, j)
      invariant Holds(groups, sizes, lanes, j)
    {
      hide Holds, Measured, Lanes, Cut;
      CountGrows(groups, platforms, j, |groups|);
      var lane := FirstLane(boundaries, sizes, position);
      PlacesOne(groups, platforms, sizes, lanes, lane, j);
      lanes := lanes[lane := lanes[lane] + [groups[j]]];
      position, j := position + groups[j].count, j + 1;
    }
  }

  ghost predicate Holds(groups: seq<Group>, sizes: seq<nat>, lanes: seq<seq<Group>>, j: nat)
    requires j <= |groups|
    ensures Holds(groups, sizes, lanes, j) ==> |lanes| == |sizes|
  {
    |lanes| == |sizes| && forall i :: 0 <= i < |lanes| ==> lanes[i] == Filled(groups, sizes, i, j)
  }

  lemma PlacesOne(groups: seq<Group>, platforms: nat, sizes: seq<nat>, lanes: seq<seq<Group>>, lane: nat, j: nat)
    requires Measured(groups, platforms) && j < |groups| && lane < |sizes| && Holds(groups, sizes, lanes, j)
    requires Sum(sizes, lane) <= Count(groups, j) < Sum(sizes, lane + 1)
    ensures Holds(groups, sizes, lanes[lane := lanes[lane] + [groups[j]]], j + 1)
  {
    hide Filled;
    CutIs(groups, platforms, Sum(sizes, lane), |groups|, j);
    CutIs(groups, platforms, Sum(sizes, lane + 1), |groups|, j);
    forall i | 0 <= i < |sizes|
      ensures Filled(groups, sizes, i, j + 1) == Filled(groups, sizes, i, j) + (if i == lane then [groups[j]] else [])
    {
      FillsOne(groups, platforms, sizes, i, lane, j);
    }
  }

  /** `next(index for index, end in enumerate(boundaries) if position < end)`. */
  method FirstLane(boundaries: seq<nat>, sizes: seq<nat>, position: nat) returns (lane: nat)
    requires |boundaries| == |sizes| && (forall i :: 0 <= i < |boundaries| ==> boundaries[i] == Sum(sizes, i + 1))
    requires position < Sum(sizes, |sizes|)
    ensures lane < |sizes| && Sum(sizes, lane) <= position < Sum(sizes, lane + 1)
  {
    lane := 0;
    while position >= boundaries[lane]
      invariant lane < |sizes| && Sum(sizes, lane) <= position
      decreases |sizes| - lane
    {
      lane := lane + 1;
      if lane == |sizes| {
        assert false;
      }
    }
  }

  lemma FilledEnds(groups: seq<Group>, sizes: seq<nat>)
    ensures Holds(groups, sizes, seq(|sizes|, _ => []), 0)
    ensures forall lanes :: Holds(groups, sizes, lanes, |groups|) ==> lanes == Lanes(groups, sizes)
  {
  }

  lemma FillsOne(groups: seq<Group>, platforms: nat, sizes: seq<nat>, i: nat, lane: nat, j: nat)
    requires Measured(groups, platforms) && i < |sizes| && lane < |sizes| && j < |groups|
    requires Edge(groups, sizes, lane) <= j < Edge(groups, sizes, lane + 1)
    ensures Filled(groups, sizes, i, j + 1) == Filled(groups, sizes, i, j) + (if i == lane then [groups[j]] else [])
  {
    hide Edge, Measured;
    EdgesGrow(groups, platforms, sizes, i, i + 1);
    if i < lane {
      EdgesGrow(groups, platforms, sizes, i + 1, lane);
    } else if i > lane {
      EdgesGrow(groups, platforms, sizes, lane + 1, i);
    }
  }

  // ---- what the sizes and the lanes are ----

  /** Each lane's size is its share of the tests rounded down, and one more in the first `extra` lanes;
    * together with `SizesAddUp` that leaves no choice. */
  lemma SizesAre(weights: seq<nat>, count: nat) returns (extra: nat)
    requires Sum(weights, |weights|) > 0
    ensures extra < |weights| && |Sizes(weights, count)| == |weights|
    ensures forall i :: 0 <= i < |weights| ==>
      var total := Sum(weights, |weights|);
      var floor := Sizes(weights, count)[i] as int - (if i < extra then 1 else 0);
      floor >= 0 && floor * total <= weights[i] * count < floor * total + total
  {
    var floors := Floors(weights, count);
    Remainder(weights, count);
    extra := count - Sum(floors, |floors|);
    forall i | 0 <= i < |weights|
      ensures Sizes(weights, count)[i] - (if i < extra then 1 else 0) ==
        Floor(weights[i], count, Sum(weights, |weights|))
    {
    }
  }

  /** A group is in the lane whose stretch of the tests its first test falls into, and lanes keep the order
    * of the groups. */
  lemma GroupsByPosition(groups: seq<Group>, platforms: nat, sizes: seq<nat>, k: nat) returns (from: nat, to: nat)
    requires Measured(groups, platforms) && k < |sizes|
    ensures from <= to <= |groups| && |Lanes(groups, sizes)| == |sizes| && Lanes(groups, sizes)[k] == groups[from..to]
    ensures forall j :: 0 <= j < |groups| ==>
      (from <= j < to <==> Sum(sizes, k) <= Count(groups, j) < Sum(sizes, k) + sizes[k])
  {
    from, to := Edge(groups, sizes, k), Edge(groups, sizes, k + 1);
    EdgesGrow(groups, platforms, sizes, k, k + 1);
    forall j | 0 <= j < |groups|
      ensures from <= j < to <==> Sum(sizes, k) <= Count(groups, j) < Sum(sizes, k) + sizes[k]
    {
      CutIs(groups, platforms, Sum(sizes, k), |groups|, j);
      CutIs(groups, platforms, Sum(sizes, k + 1), |groups|, j);
    }
  }
}
