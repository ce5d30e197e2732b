/** `fit` of fit-desktop-e2e-shards.py: the partition it picks, and why no four weights do better. */
module ShardOptimum {
  import opened Prelude
  import opened ShardFitter

  function Seconds(g: Group, p: nat): real {
    if p < |g.seconds| then g.seconds[p] else 0.0
  }

  function Total(lane: seq<Group>, p: nat): real {
    if lane == [] then 0.0 else Total(lane[..|lane| - 1], p) + Seconds(lane[|lane| - 1], p)
  }

  function Longer(x: real, y: real): real {
    if x < y then y else x
  }

  /** The longest of the first `k` lanes. */
  function Longest(lanes: seq<seq<Group>>, p: nat, k: nat): real
    requires 0 < k <= |lanes|
  {
    if k == 1 then Total(lanes[0], p) else Longer(Longest(lanes, p, k - 1), Total(lanes[k - 1], p))
  }

  /** The longest lane of each platform, summed. */
  function Score(lanes: seq<seq<Group>>, platforms: nat): real
    requires lanes != []
  {
    if platforms == 0 then 0.0 else Score(lanes, platforms - 1) + Longest(lanes, platforms - 1, |lanes|)
  }

  // ---- four lanes at three cuts ----

  datatype Cuts = Cuts(a: nat, b: nat, c: nat)

  predicate Weak(cuts: Cuts, n: nat) {
    cuts.a <= cuts.b <= cuts.c <= n
  }

  predicate Strict(cuts: Cuts, n: nat) {
    0 < cuts.a < cuts.b < cuts.c < n
  }

  function EdgeAt(cuts: Cuts, n: nat, k: nat): nat {
    match k case 0 => 0 case 1 => cuts.a case 2 => cuts.b case 3 => cuts.c case _ => n
  }

  function Segment(groups: seq<Group>, cuts: Cuts, k: nat): seq<Group>
    requires Weak(cuts, |groups|)
  {
    groups[EdgeAt(cuts, |groups|, k)..EdgeAt(cuts, |groups|, k + 1)]
  }

  function Segments(groups: seq<Group>, cuts: Cuts): (lanes: seq<seq<Group>>)
    requires Weak(cuts, |groups|)
    ensures |lanes| == 4
  {
    [Segment(groups, cuts, 0), Segment(groups, cuts, 1), Segment(groups, cuts, 2), Segment(groups, cuts, 3)]
  }

  /** The test counts of the lanes: the weights `fit` returns. */
  function Weights(groups: seq<Group>, cuts: Cuts): seq<nat>
    requires Weak(cuts, |groups|)
  {
    seq(4, k requires 0 <= k < 4 => Difference(groups, EdgeAt(cuts, |groups|, k), EdgeAt(cuts, |groups|, k + 1)))
  }

  function Difference(groups: seq<Group>, from: nat, to: nat): nat
    requires from <= to <= |groups|
  {
    if Count(groups, from) <= Count(groups, to) then Count(groups, to) - Count(groups, from) else 0
  }

  lemma {:induction false} CountsNeverFall(groups: seq<Group>, lo: nat, hi: nat)
    requires lo <= hi <= |groups|
    ensures Count(groups, lo) <= Count(groups, hi)
    decreases hi - lo
  {
    if lo < hi {
      CountsNeverFall(groups, lo, hi - 1);
    }
  }

  // ---- every allocation is a partition at three cuts ----

  function WeightCuts(groups: seq<Group>, weights: seq<nat>): Cuts
    requires |weights| == 4 && Sum(weights, 4) > 0
  {
    var sizes := Sizes(weights, Count(groups, |groups|));
    Cuts(Edge(groups, sizes, 1), Edge(groups, sizes, 2), Edge(groups, sizes, 3))
  }

  lemma OuterEdges(groups: seq<Group>, platforms: nat, sizes: seq<nat>)
    requires Measured(groups, platforms) && Sum(sizes, |sizes|) == Count(groups, |groups|)
    ensures Edge(groups, sizes, 0) == 0 && Edge(groups, sizes, |sizes|) == |groups|
  {
    var n := |groups|;
    if n > 0 {
      CutIs(groups, platforms, 0, n, 0);
      CutIs(groups, platforms, Sum(sizes, |sizes|), n, n - 1);
      CountGrows(groups, platforms, n - 1, n);
    }
  }

  lemma AllocationIsCut(groups: seq<Group>, platforms: nat, weights: seq<nat>)
    requires Measured(groups, platforms) && |weights| == 4 && Sum(weights, 4) > 0
    ensures Weak(WeightCuts(groups, weights), |groups|)
    ensures Allocation(groups, weights) == Segments(groups, WeightCuts(groups, weights))
  {
    hide Edge, Measured, Sizes, Sum;
    var sizes := Sizes(weights, Count(groups, |groups|));
    SizesAddUp(weights, Count(groups, |groups|));
    OuterEdges(groups, platforms, sizes);
    EdgesGrow(groups, platforms, sizes, 0, 1);
    EdgesGrow(groups, platforms, sizes, 1, 2);
    EdgesGrow(groups, platforms, sizes, 2, 3);
    EdgesGrow(groups, platforms, sizes, 3, 4);
  }

  // ---- the counts of a partition reproduce it ----

  lemma WeightsSum(groups: seq<Group>, cuts: Cuts, k: nat)
    requires Weak(cuts, |groups|) && k <= 4
    ensures Sum(Weights(groups, cuts), k) == Count(groups, EdgeAt(cuts, |groups|, k))
  {
    if k > 0 {
      WeightsSum(groups, cuts, k - 1);
      CountsNeverFall(groups, EdgeAt(cuts, |groups|, k - 1), EdgeAt(cuts, |groups|, k));
    }
  }

  lemma ExactFloor(weight: nat, count: nat)
    requires count > 0
    ensures Floor(weight, count, count) == weight
  {
    var size := Floor(weight, count, count);
    if size < weight {
      Spread(size, 1, count);
      Cancel(weight, size + 1, count);
    }
    Cancel(size, weight, count);
  }

  lemma ExactSizes(groups: seq<Group>, cuts: Cuts)
    requires Weak(cuts, |groups|) && Count(groups, |groups|) > 0
    ensures Sum(Weights(groups, cuts), 4) == Count(groups, |groups|)
    ensures Sizes(Weights(groups, cuts), Count(groups, |groups|)) == Weights(groups, cuts)
  {
    var weights, count := Weights(groups, cuts), Count(groups, |groups|);
    WeightsSum(groups, cuts, 4);
    forall k | 0 <= k < 4 ensures Floors(weights, count)[k] == weights[k] {
      ExactFloor(weights[k], count);
    }
    assert Floors(weights, count) == weights;
  }

  lemma CutAtGroup(groups: seq<Group>, platforms: nat, e: nat)
    requires Measured(groups, platforms) && e <= |groups|
    ensures Cut(groups, Count(groups, e), |groups|) == e
  {
    if e > 0 {
      CountGrows(groups, platforms, e - 1, e);
      CutIs(groups, platforms, Count(groups, e), |groups|, e - 1);
    }
    if e < |groups| {
      CutIs(groups, platforms, Count(groups, e), |groups|, e);
    }
  }

  /** `allocate` on the counts of a partition's lanes gives back exactly that partition. */
  lemma CountsReproduce(groups: seq<Group>, platforms: nat, cuts: Cuts)
    requires Measured(groups, platforms) && groups != [] && Weak(cuts, |groups|)
    ensures Sum(Weights(groups, cuts), 4) > 0
    ensures Allocation(groups, Weights(groups, cuts)) == Segments(groups, cuts)
  {
    var weights := Weights(groups, cuts);
    CountGrows(groups, platforms, 0, |groups|);
    ExactSizes(groups, cuts);
    AllocationIsCut(groups, platforms, weights);
    WeightsSum(groups, cuts, 1);
    WeightsSum(groups, cuts, 2);
    WeightsSum(groups, cuts, 3);
    CutAtGroup(groups, platforms, cuts.a);
    CutAtGroup(groups, platforms, cuts.b);
    CutAtGroup(groups, platforms, cuts.c);
    assert WeightCuts(groups, weights) == cuts;
  }

  // ---- using all four lanes costs nothing ----

  /** The nearest partition without an empty lane. */
  function Refined(cuts: Cuts, n: nat): (fine: Cuts)
    requires Weak(cuts, n) && n >= 4
    ensures Strict(fine, n)
  {
    var a := Max(1, Min(cuts.a, n - 3));
    var b := Max(a + 1, Min(cuts.b, n - 2));
    var c := Max(b + 1, Min(cuts.c, n - 1));
    Cuts(a, b, c)
  }

  lemma EachWithinOne(cuts: Cuts, n: nat, k: nat) returns (m: nat)
    requires Weak(cuts, n) && n >= 4 && k < 4
    ensures m < 4 && EdgeAt(cuts, n, m) <= EdgeAt(Refined(cuts, n), n, k)
    ensures EdgeAt(Refined(cuts, n), n, k + 1) <= EdgeAt(cuts, n, m + 1)
  {
    var from := EdgeAt(Refined(cuts, n), n, k);
    m := if from >= cuts.c then 3 else if from >= cuts.b then 2 else if from >= cuts.a then 1 else 0;
  }

  lemma {:induction false} NoneNegative(groups: seq<Group>, platforms: nat, p: nat, lo: nat, hi: nat)
    requires Measured(groups, platforms) && p < platforms && lo <= hi <= |groups|
    ensures Total(groups[lo..hi], p) >= 0.0
    decreases hi - lo
  {
    if lo < hi {
      NoneNegative(groups, platforms, p, lo, hi - 1);
      assert groups[lo..hi][..hi - lo - 1] == groups[lo..hi - 1] && groups[hi - 1] in groups;
    }
  }

  lemma {:induction false} TotalSplit(groups: seq<Group>, p: nat, lo: nat, mid: nat, hi: nat)
    requires lo <= mid <= hi <= |groups|
    ensures Total(groups[lo..hi], p) == Total(groups[lo..mid], p) + Total(groups[mid..hi], p)
    decreases hi - mid
  {
    if mid < hi {
      TotalSplit(groups, p, lo, mid, hi - 1);
      assert groups[lo..hi][..hi - lo - 1] == groups[lo..hi - 1];
      assert groups[mid..hi][..hi - mid - 1] == groups[mid..hi - 1];
    } else {
      assert groups[mid..hi] == [];
    }
  }

  lemma {:induction false} NoneLonger(lanes: seq<seq<Group>>, p: nat, k: nat, j: nat)
    requires j < k <= |lanes|
    ensures Total(lanes[j], p) <= Longest(lanes, p, k)
  {
    if j < k - 1 {
      NoneLonger(lanes, p, k - 1, j);
    }
  }

  lemma {:induction false} LongestWithin(lanes: seq<seq<Group>>, p: nat, k: nat, bound: real)
    requires 0 < k <= |lanes| && forall j :: 0 <= j < k ==> Total(lanes[j], p) <= bound
    ensures Longest(lanes, p, k) <= bound
  {
    if k > 1 {
      LongestWithin(lanes, p, k - 1, bound);
    }
  }

  lemma SegmentNoLonger(groups: seq<Group>, platforms: nat, cuts: Cuts, p: nat, k: nat)
    requires Measured(groups, platforms) && p < platforms && Weak(cuts, |groups|) && |groups| >= 4 && k < 4
    ensures Total(Segment(groups, Refined(cuts, |groups|), k), p) <= Longest(Segments(groups, cuts), p, 4)
  {
    var n := |groups|;
    var m := EachWithinOne(cuts, n, k);
    var lo, hi := EdgeAt(cuts, n, m), EdgeAt(cuts, n, m + 1);
    var left, right := EdgeAt(Refined(cuts, n), n, k), EdgeAt(Refined(cuts, n), n, k + 1);
    TotalSplit(groups, p, lo, left, hi);
    TotalSplit(groups, p, left, right, hi);
    NoneNegative(groups, platforms, p, lo, left);
    NoneNegative(groups, platforms, p, right, hi);
    NoneLonger(Segments(groups, cuts), p, 4, m);
    assert Segments(groups, cuts)[m] == Segment(groups, cuts, m);
  }

  lemma LongestNoLonger(groups: seq<Group>, platforms: nat, cuts: Cuts, p: nat)
    requires Measured(groups, platforms) && p < platforms && Weak(cuts, |groups|) && |groups| >= 4
    ensures Longest(Segments(groups, Refined(cuts, |groups|)), p, 4) <= Longest(Segments(groups, cuts), p, 4)
  {
    hide Refined, Measured, Total;
    var fine := Segments(groups, Refined(cuts, |groups|));
    forall k | 0 <= k < 4 ensures Total(fine[k], p) <= Longest(Segments(groups, cuts), p, 4) {
      SegmentNoLonger(groups, platforms, cuts, p, k);
    }
    LongestWithin(fine, p, 4, Longest(Segments(groups, cuts), p, 4));
  }

  lemma {:induction false} RefinedNoWorse(groups: seq<Group>, platforms: nat, cuts: Cuts, n: nat)
    requires Measured(groups, platforms) && n <= platforms && Weak(cuts, |groups|) && |groups| >= 4
    ensures Score(Segments(groups, Refined(cuts, |groups|)), n) <= Score(Segments(groups, cuts), n)
  {
    hide Refined, Measured, Longest, Segment;
    if n > 0 {
      RefinedNoWorse(groups, platforms, cuts, n - 1);
      LongestNoLonger(groups, platforms, cuts, n - 1);
    }
  }

  // ---- fit ----

  /** The order of `itertools.combinations`. */
  predicate Before(x: Cuts, y: Cuts) {
    x.a < y.a || (x.a == y.a && (x.b < y.b || (x.b == y.b && x.c < y.c)))
  }

  ghost predicate BestOf(groups: seq<Group>, platforms: nat, best: Cuts, seen: Cuts -> bool) {
    && Strict(best, |groups|)
    && forall y :: Strict(y, |groups|) && seen(y) ==>
         && Score(Segments(groups, best), platforms) <= Score(Segments(groups, y), platforms)
         && (Before(y, best) ==> Score(Segments(groups, best), platforms) < Score(Segments(groups, y), platforms))
  }

  /** The first of the best partitions without an empty lane. */
  ghost predicate Best(groups: seq<Group>, platforms: nat, best: Cuts) {
    BestOf(groups, platforms, best, _ => true)
  }

  /** No four weights give a shorter sum of longest lanes than the counts `fit` returns, even those
    * that leave lanes empty. */
  lemma FitIsOptimal(groups: seq<Group>, platforms: nat, best: Cuts, weights: seq<nat>)
    requires Measured(groups, platforms) && |groups| >= 4 && Best(groups, platforms, best)
    requires |weights| == 4 && Sum(weights, 4) > 0
    ensures Sum(Weights(groups, best), 4) > 0
    ensures Score(Allocation(groups, Weights(groups, best)), platforms) <= Score(Allocation(groups, weights), platforms)
  {
    CountsReproduce(groups, platforms, best);
    AllocationIsCut(groups, platforms, weights);
    var cuts := WeightCuts(groups, weights);
    RefinedNoWorse(groups, platforms, cuts, platforms);
  }

  /** The running totals of one platform. */
  ghost predicate Prefixes(groups: seq<Group>, p: nat, prefix: seq<real>, n: nat)
    requires n <= |groups|
  {
    |prefix| == n + 1 && forall j :: 0 <= j <= n ==> prefix[j] == Total(groups[..j], p)
  }

  lemma PrefixGrows(groups: seq<Group>, p: nat, prefix: seq<real>, n: nat)
    requires n < |groups| && Prefixes(groups, p, prefix, n)
    ensures Prefixes(groups, p, prefix + [prefix[n] + Seconds(groups[n], p)], n + 1)
  {
    assert groups[..n + 1][..n] == groups[..n];
  }

  /** Each platform's running totals, over the first `n` groups. */
  ghost predicate AllPrefixes(groups: seq<Group>, platforms: nat, durations: seq<seq<real>>, n: nat)
    requires n <= |groups|
  {
    |durations| == platforms && forall p :: 0 <= p < platforms ==> Prefixes(groups, p, durations[p], n)
  }

  method Accumulate(groups: seq<Group>, platforms: nat) returns (counts: seq<nat>, durations: seq<seq<real>>)
    requires Measured(groups, platforms)
    ensures |counts| == |groups| + 1 && forall j :: 0 <= j <= |groups| ==> counts[j] == Count(groups, j)
    ensures AllPrefixes(groups, platforms, durations, |groups|)
  {
    counts, durations := [0], seq(platforms, _ => [0.0]);
    var i := 0;
    while i < |groups|
      invariant i <= |groups| && |counts| == i + 1 && (forall j :: 0 <= j <= i ==> counts[j] == Count(groups, j))
      invariant AllPrefixes(groups, platforms, durations, i)
    {
      hide AllPrefixes;
      counts := counts + [counts[i] + groups[i].count];
      durations := AddGroup(groups, platforms, durations, i);
      i := i + 1;
    }
  }

  method AddGroup(groups: seq<Group>, platforms: nat, before: seq<seq<real>>, i: nat)
    returns (durations: seq<seq<real>>)
    requires Measured(groups, platforms) && i < |groups| && AllPrefixes(groups, platforms, before, i)
    ensures AllPrefixes(groups, platforms, durations, i + 1)
  {
    durations := before;
    assert groups[i] in groups;
    var p := 0;
    while p < platforms
      invariant p <= platforms && |durations| == platforms
      invariant forall q :: 0 <= q < p ==> Prefixes(groups, q, durations[q], i + 1)
      invariant forall q :: p <= q < platforms ==> durations[q] == before[q]
    {
      PrefixGrows(groups, p, before[p], i);
      hide Prefixes;
      durations := durations[p := before[p] + [LastOf(groups, p, before[p], i) + groups[i].seconds[p]]];
      p := p + 1;
    }
  }

  function LastOf(groups: seq<Group>, p: nat, prefix: seq<real>, n: nat): (last: real)
    requires n <= |groups| && Prefixes(groups, p, prefix, n)
    ensures last == prefix[|prefix| - 1]
  {
    prefix[n]
  }

  /** The score of one candidate, from the running totals. */
  method ScoreOf(groups: seq<Group>, platforms: nat, durations: seq<seq<real>>, cuts: Cuts) returns (score: real)
    requires AllPrefixes(groups, platforms, durations, |groups|) && Weak(cuts, |groups|)
    ensures score == Score(Segments(groups, cuts), platforms)
  {
    hide Prefixes, Longest, Segment;
    score := 0.0;
    var p := 0;
    while p < platforms
      invariant p <= platforms && score == Score(Segments(groups, cuts), p)
    {
      assert Prefixes(groups, p, durations[p], |groups|);
      var worst := WorstOf(groups, p, durations[p], cuts);
      score, p := score + worst, p + 1;
    }
  }

  method WorstOf(groups: seq<Group>, p: nat, prefix: seq<real>, cuts: Cuts) returns (worst: real)
    requires Prefixes(groups, p, prefix, |groups|) && Weak(cuts, |groups|)
    ensures worst == Longest(Segments(groups, cuts), p, 4)
  {
    var edges := [0, cuts.a, cuts.b, cuts.c, |groups|];
    forall j | 0 <= j < 4 ensures prefix[edges[j + 1]] - prefix[edges[j]] == Total(Segments(groups, cuts)[j], p) {
      SegmentTotal(groups, p, prefix, cuts, j);
    }
    worst := prefix[edges[1]] - prefix[edges[0]];
    var k := 1;
    while k < 4
      invariant 1 <= k <= 4 && worst == Longest(Segments(groups, cuts), p, k)
    {
      hide Prefixes, Total, Segments;
      worst := Longer(worst, prefix[edges[k + 1]] - prefix[edges[k]]);
      k := k + 1;
    }
  }

  lemma SegmentTotal(groups: seq<Group>, p: nat, prefix: seq<real>, cuts: Cuts, k: nat)
    requires Prefixes(groups, p, prefix, |groups|) && Weak(cuts, |groups|) && k < 4
    ensures prefix[EdgeAt(cuts, |groups|, k + 1)] - prefix[EdgeAt(cuts, |groups|, k)] ==
      Total(Segment(groups, cuts, k), p)
  {
    var lo, hi := EdgeAt(cuts, |groups|, k), EdgeAt(cuts, |groups|, k + 1);
    TotalSplit(groups, p, 0, lo, hi);
    assert groups[0..lo] == groups[..lo] && groups[0..hi] == groups[..hi];
  }

  /** The scan has seen every partition before `at` and kept the first of the best. */
  ghost predicate Scanned(groups: seq<Group>, platforms: nat, best: Option<Cuts>, at: Cuts) {
    if best.None? then forall y :: Strict(y, |groups|) ==> !Before(y, at)
    else Before(best.value, at) && BestOf(groups, platforms, best.value, y => Before(y, at))
  }

  /** One candidate more: the earlier one stays unless this one is strictly better. */
  lemma Compares(groups: seq<Group>, platforms: nat, best: Option<Cuts>, at: Cuts)
    requires Strict(at, |groups|) && Scanned(groups, platforms, best, at)
    ensures var score := Score(Segments(groups, at), platforms);
      var better := best.None? || score < Score(Segments(groups, best.value), platforms);
      Scanned(groups, platforms, Some(if better then at else best.value), at.(c := at.c + 1))
  {
    hide Score, Segments;
    var next := at.(c := at.c + 1);
    assert forall y :: Before(y, next) ==> y == at || Before(y, at);
  }

  /** Moving past positions where no partition is. */
  lemma MovesOn(groups: seq<Group>, platforms: nat, best: Option<Cuts>, at: Cuts, next: Cuts)
    requires Scanned(groups, platforms, best, at)
    requires forall y :: Strict(y, |groups|) ==> (Before(y, at) <==> Before(y, next))
    requires best.Some? ==> Strict(best.value, |groups|)
    ensures Scanned(groups, platforms, best, next)
  {
    hide Score, Segments;
  }

  lemma AllScanned(groups: seq<Group>, platforms: nat, best: Option<Cuts>)
    requires Scanned(groups, platforms, best, Cuts(|groups|, 0, 0))
    ensures best.Some? <==> |groups| >= 4
    ensures best.Some? ==> Best(groups, platforms, best.value)
  {
    hide Score, Segments;
    if |groups| >= 4 {
      assert Strict(Cuts(1, 2, 3), |groups|);
    }
  }

  /** `fit`: the test counts of the first best partition, or an error below four groups. */
  method Fit(groups: seq<Group>, platforms: nat) returns (weights: Option<seq<nat>>, ghost best: Option<Cuts>)
    requires Measured(groups, platforms)
    ensures weights.Some? <==> |groups| >= 4
    ensures weights.Some? ==>
      best.Some? && Best(groups, platforms, best.value) && weights.value == Weights(groups, best.value)
    ensures weights.Some? ==>
      (&& Sum(weights.value, |weights.value|) > 0
       && Allocation(groups, weights.value) == Segments(groups, best.value))
    ensures weights.Some? ==>
      (forall w: seq<nat> :: |w| == 4 && Sum(w, |w|) > 0 ==>
         Score(Allocation(groups, weights.value), platforms) <= Score(Allocation(groups, w), platforms))
  {
    hide Scanned, Score, Segments, Measured, AllPrefixes, Best;
    var counts, durations := Accumulate(groups, platforms);
    var n, found, record := |groups|, None, 0.0;
    var a := 1;
    NothingBefore(groups, platforms);
    while a < n
      invariant 1 <= a && (a <= n || n == 0) && Scanned(groups, platforms, found, Cuts(a, 0, 0))
      invariant found.Some? ==> Strict(found.value, n) && record == Score(Segments(groups, found.value), platforms)
    {
      var b := a + 1;
      MovesOn(groups, platforms, found, Cuts(a, 0, 0), Cuts(a, b, 0));
      while b < n
        invariant a < b <= n && Scanned(groups, platforms, found, Cuts(a, b, 0))
        invariant found.Some? ==> Strict(found.value, n) && record == Score(Segments(groups, found.value), platforms)
      {
        var c := b + 1;
        MovesOn(groups, platforms, found, Cuts(a, b, 0), Cuts(a, b, c));
        while c < n
          invariant b < c <= n && Scanned(groups, platforms, found, Cuts(a, b, c))
          invariant found.Some? ==> Strict(found.value, n) && record == Score(Segments(groups, found.value), platforms)
        {
          var score := ScoreOf(groups, platforms, durations, Cuts(a, b, c));
          Compares(groups, platforms, found, Cuts(a, b, c));
          if found.None? || score < record {
            found, record := Some(Cuts(a, b, c)), score;
          }
          c := c + 1;
        }
        MovesOn(groups, platforms, found, Cuts(a, b, c), Cuts(a, b + 1, 0));
        b := b + 1;
      }
      MovesOn(groups, platforms, found, Cuts(a, b, 0), Cuts(a + 1, 0, 0));
      a := a + 1;
    }
    best := found;
    MovesOn(groups, platforms, found, Cuts(a, 0, 0), Cuts(n, 0, 0));
    AllScanned(groups, platforms, found);
    if found.None? {
      return None, best;
    }
    BestIsStrict(groups, platforms, found.value);
    var cuts := found.value;
    var edges := [0, cuts.a, cuts.b, cuts.c, n];
    CountsNeverFall(groups, 0, cuts.a);
    CountsNeverFall(groups, cuts.a, cuts.b);
    CountsNeverFall(groups, cuts.b, cuts.c);
    CountsNeverFall(groups, cuts.c, n);
    weights := Some([counts[edges[1]] - counts[edges[0]], counts[edges[2]] - counts[edges[1]],
                     counts[edges[3]] - counts[edges[2]], counts[edges[4]] - counts[edges[3]]]);
    assert weights.value == Weights(groups, cuts);
    CountsReproduce(groups, platforms, cuts);
    forall w: seq<nat> | |w| == 4 && Sum(w, |w|) > 0
      ensures Score(Allocation(groups, weights.value), platforms) <= Score(Allocation(groups, w), platforms)
    {
      FitIsOptimal(groups, platforms, cuts, w);
    }
  }

  lemma NothingBefore(groups: seq<Group>, platforms: nat)
    ensures Scanned(groups, platforms, None, Cuts(1, 0, 0))
  {
  }

  lemma BestIsStrict(groups: seq<Group>, platforms: nat, best: Cuts)
    requires Best(groups, platforms, best)
    ensures Strict(best, |groups|)
  {
  }

  // ---- what the score is ----

  function AddUp(xs: seq<real>): real {
    if xs == [] then 0.0 else AddUp(xs[..|xs| - 1]) + xs[|xs| - 1]
  }

  /** The measured times of a lane's groups on one platform. */
  function Times(lane: seq<Group>, p: nat): seq<real> {
    seq(|lane|, i requires 0 <= i < |lane| => if p < |lane[i].seconds| then lane[i].seconds[p] else 0.0)
  }

  /** What the groups of a lane take on a platform, added up. */
  lemma {:induction false} TotalIs(lane: seq<Group>, p: nat)
    ensures Total(lane, p) == AddUp(Times(lane, p))
    decreases |lane|
  {
    if lane != [] {
      TotalIs(lane[..|lane| - 1], p);
      assert Times(lane, p)[..|lane| - 1] == Times(lane[..|lane| - 1], p);
    }
  }

  /** The longest lane of a platform is one of the lanes, and none is longer. */
  lemma {:induction false} LongestIs(lanes: seq<seq<Group>>, p: nat, k: nat) returns (j: nat)
    requires 0 < k <= |lanes|
    ensures j < k && Longest(lanes, p, k) == Total(lanes[j], p)
    ensures forall i :: 0 <= i < k ==> Total(lanes[i], p) <= Longest(lanes, p, k)
  {
    if k == 1 {
      j := 0;
    } else {
      j := LongestIs(lanes, p, k - 1);
      if Total(lanes[j], p) < Total(lanes[k - 1], p) {
        j := k - 1;
      }
    }
  }

  /** The score is the sum, over the platforms, of what the longest lane of each takes. */
  lemma {:induction false} ScoreIs(lanes: seq<seq<Group>>, platforms: nat, worst: seq<real>)
    requires lanes != [] && |worst| == platforms
    requires forall p :: 0 <= p < platforms ==>
      (exists j :: 0 <= j < |lanes| && worst[p] == Total(lanes[j], p))
      && forall i :: 0 <= i < |lanes| ==> Total(lanes[i], p) <= worst[p]
    ensures Score(lanes, platforms) == AddUp(worst)
  {
    if platforms > 0 {
      var p := platforms - 1;
      var j := LongestIs(lanes, p, |lanes|);
      var i :| 0 <= i < |lanes| && worst[p] == Total(lanes[i], p);
      assert worst[p] == Longest(lanes, p, |lanes|);
      forall q | 0 <= q < p
        ensures (exists i :: 0 <= i < |lanes| && worst[..p][q] == Total(lanes[i], q))
        ensures forall i :: 0 <= i < |lanes| ==> Total(lanes[i], q) <= worst[..p][q]
      {
        assert worst[..p][q] == worst[q];
      }
      ScoreIs(lanes, p, worst[..p]);
    }
  }
}
