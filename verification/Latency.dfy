/** One route's counters and its 95th percentile, against the requests they summarise. */
module Latency {

  const BOUNDS: seq<int> := [5, 10, 25, 50, 100, 250, 500, 1000, 2500, 5000]

  /** The first digit of a status code; anything below 200 counts as the first class. */
  datatype Class = Informational | Success | Redirection | ClientError | ServerError

  /** One finished request: its status code and how long it took, in milliseconds. */
  datatype Sample = Sample(status: int, ms: int)

  function Digit(c: Class): int {
    match c
    case Informational => 1
    case Success => 2
    case Redirection => 3
    case ClientError => 4
    case ServerError => 5
  }

  function StatusClass(status: int): (c: Class)
    ensures 100 <= status < 600 ==> Digit(c) == status / 100
    ensures status < 100 ==> Digit(c) == 1
    ensures status >= 600 ==> Digit(c) == 5
  {
    if status >= 500 then ServerError
    else if status >= 400 then ClientError
    else if status >= 300 then Redirection
    else if status >= 200 then Success
    else Informational
  }

  // ---------------------------------------------------------------- counting

  function Count(xs: seq<Sample>, p: Sample -> bool): nat {
    if xs == [] then 0 else Count(xs[..|xs| - 1], p) + if p(xs[|xs| - 1]) then 1 else 0
  }

  function InClass(c: Class): Sample -> bool { (x: Sample) => StatusClass(x.status) == c }

  function InBucket(b: nat): Sample -> bool { (x: Sample) => Bucket(x.ms) == b }

  function BucketBelow(b: nat): Sample -> bool { (x: Sample) => Bucket(x.ms) < b }

  function AtMost(v: int): Sample -> bool { (x: Sample) => x.ms <= v }

  function Under(v: int): Sample -> bool { (x: Sample) => x.ms < v }

  ghost function Positions(xs: seq<Sample>, p: Sample -> bool): set<int> {
    set i | 0 <= i < |xs| && p(xs[i])
  }

  lemma PositionsNext(xs: seq<Sample>, x: Sample, p: Sample -> bool)
    ensures Positions(xs + [x], p) == Positions(xs, p) + if p(x) then {|xs|} else {}
  {
  }

  /** Counting agrees with the size of the set of positions. */
  lemma {:induction false} CountIsNumberOfPositions(xs: seq<Sample>, p: Sample -> bool)
    ensures Count(xs, p) == |Positions(xs, p)|
    decreases |xs|
  {
    if xs != [] {
      var before, last := xs[..|xs| - 1], xs[|xs| - 1];
      assert xs == before + [last];
      CountIsNumberOfPositions(before, p);
      PositionsNext(before, last, p);
    }
  }

  lemma CountSnoc(xs: seq<Sample>, x: Sample, p: Sample -> bool)
    ensures Count(xs + [x], p) == Count(xs, p) + if p(x) then 1 else 0
  {
  }

  lemma {:induction false} CountMonotone(xs: seq<Sample>, p: Sample -> bool, q: Sample -> bool)
    requires forall x :: x in xs && p(x) ==> q(x)
    ensures Count(xs, p) <= Count(xs, q) <= |xs|
  {
    if xs != [] {
      CountMonotone(xs[..|xs| - 1], p, q);
    }
  }

  function Sum(s: seq<nat>): nat {
    if s == [] then 0 else Sum(s[..|s| - 1]) + s[|s| - 1]
  }

  lemma {:induction false} SumAfterUpdate(s: seq<nat>, i: nat)
    requires i < |s|
    ensures Sum(s[i := s[i] + 1]) == Sum(s) + 1
    decreases |s|
  {
    var t := s[i := s[i] + 1];
    var n := |s| - 1;
    if i == n {
      assert t[..n] == s[..n];
    } else {
      assert t[..n] == s[..n][i := s[i] + 1];
      SumAfterUpdate(s[..n], i);
    }
  }

  lemma PrefixAfterUpdate(s: seq<nat>, i: nat, k: nat)
    requires i < |s| && k <= |s|
    ensures Sum(s[i := s[i] + 1][..k]) == Sum(s[..k]) + if i < k then 1 else 0
  {
    var t := s[i := s[i] + 1];
    if i < k {
      assert t[..k] == s[..k][i := s[i] + 1];
      SumAfterUpdate(s[..k], i);
    } else {
      assert t[..k] == s[..k];
    }
  }

  // ---------------------------------------------------------------- buckets

  function BucketFrom(ms: int, i: nat): (b: nat)
    requires i <= |BOUNDS| && forall j :: 0 <= j < i ==> BOUNDS[j] < ms
    ensures b <= |BOUNDS| && (forall j :: 0 <= j < b ==> BOUNDS[j] < ms) && (b < |BOUNDS| ==> ms <= BOUNDS[b])
    decreases |BOUNDS| - i
  {
    if i < |BOUNDS| && BOUNDS[i] < ms then BucketFrom(ms, i + 1) else i
  }

  /** The first bucket whose upper edge is not below the sample, or the one past the last edge. */
  function Bucket(ms: int): nat { BucketFrom(ms, 0) }

  lemma BucketOrders(a: int, b: int)
    ensures a <= b ==> Bucket(a) <= Bucket(b)
    ensures Bucket(a) < Bucket(b) ==> a < b
  {
  }

  lemma EdgesIncrease(i: nat, j: nat)
    requires i < j < |BOUNDS|
    ensures BOUNDS[i] < BOUNDS[j]
  {
  }

  lemma BucketIsBetweenEdges(ms: int, b: nat)
    requires b <= |BOUNDS|
    ensures Bucket(ms) == b <==> (b == 0 || BOUNDS[b - 1] < ms) && (b == |BOUNDS| || ms <= BOUNDS[b])
  {
    var at := Bucket(ms);
    if at < b - 1 {
      EdgesIncrease(at, b - 1);
    } else if b < at - 1 {
      EdgesIncrease(b, at - 1);
    }
  }

  lemma SameBucketSameEdges(v: int, w: int)
    requires Bucket(v) == Bucket(w)
    ensures BetweenSameEdges(v, w)
  {
    var b := Bucket(v);
    forall i | 0 <= i < |BOUNDS|
      ensures v <= BOUNDS[i] <==> w <= BOUNDS[i]
    {
      if b < i {
        EdgesIncrease(b, i);
      }
    }
  }

  lemma EdgeIsInItsBucket(b: nat)
    requires b < |BOUNDS|
    ensures Bucket(BOUNDS[b]) == b
  {
  }

  method BucketIndex(ms: int) returns (index: nat)
    ensures index == Bucket(ms)
    ensures index <= 10 && (index > 0 ==> BOUNDS[index - 1] < ms) && (index < 10 ==> ms <= BOUNDS[index])
  {
    index := 0;
    while index < |BOUNDS|
      invariant index <= |BOUNDS| && forall j :: 0 <= j < index ==> BOUNDS[j] < ms
    {
      if ms <= BOUNDS[index] {
        break;
      }
      index := index + 1;
    }
    BucketIsUnique(ms, index);
  }

  lemma BucketIsUnique(ms: int, b: nat)
    requires b <= |BOUNDS| && (forall j :: 0 <= j < b ==> BOUNDS[j] < ms) && (b < |BOUNDS| ==> ms <= BOUNDS[b])
    ensures b == Bucket(ms)
  {
  }

  // ---------------------------------------------------------------- a route's counters

  predicate Occurs(xs: seq<Sample>, v: int) {
    exists x :: x in xs && x.ms == v
  }

  datatype Stat = Stat(requests: nat, byClass: map<Class, nat>, totalMs: int, maxMs: int, buckets: seq<nat>, lastStatus: int)

  function TotalMs(xs: seq<Sample>): int {
    if xs == [] then 0 else TotalMs(xs[..|xs| - 1]) + xs[|xs| - 1].ms
  }

  function MaxMs(xs: seq<Sample>): (m: int)
    ensures m >= 0 && (m == 0 || Occurs(xs, m)) && forall x :: x in xs ==> x.ms <= m
  {
    if xs == [] then 0
    else
      var before, last := MaxMs(xs[..|xs| - 1]), xs[|xs| - 1].ms;
      assert forall x :: x in xs ==> x in xs[..|xs| - 1] || x.ms == last;
      assert xs[|xs| - 1] in xs;
      if last > before then last else before
  }

  lemma {:induction false} TotalIsAdditive(xs: seq<Sample>, ys: seq<Sample>)
    ensures TotalMs(xs + ys) == TotalMs(xs) + TotalMs(ys)
    decreases |ys|
  {
    if ys == [] {
      assert xs + ys == xs;
    } else {
      var n := |ys| - 1;
      TotalIsAdditive(xs, ys[..n]);
      assert (xs + ys)[..|xs + ys| - 1] == xs + ys[..n];
    }
  }

  lemma TotalOfOne(x: Sample)
    ensures TotalMs([x]) == x.ms
  {
    assert [x][..0] == [];
  }

  function ClassCounts(xs: seq<Sample>): map<Class, nat> {
    map c: Class | Count(xs, InClass(c)) > 0 :: Count(xs, InClass(c))
  }

  function BucketCounts(xs: seq<Sample>): seq<nat> {
    seq(|BOUNDS| + 1, b requires 0 <= b => Count(xs, InBucket(b)))
  }

  /** What the counters of a route must be after these requests. */
  function Summary(xs: seq<Sample>): Stat {
    Stat(|xs|, ClassCounts(xs), TotalMs(xs), MaxMs(xs), BucketCounts(xs), if xs == [] then 0 else xs[|xs| - 1].status)
  }

  const UNUSED := Stat(0, map[], 0, 0, [0, 0, 0, 0, 0, 0, 0, 0, 0, 0, 0], 0)

  /** How many requests of a class a route reports; a missing entry reads as zero. */
  function Reported(byClass: map<Class, nat>, c: Class): nat {
    if c in byClass then byClass[c] else 0
  }

  /** The requests in the b-th bucket: slower than the edge before it, no slower than its own. */
  function BetweenEdges(b: nat): Sample -> bool
    requires b <= |BOUNDS|
  {
    (x: Sample) => (b == 0 || BOUNDS[b - 1] < x.ms) && (b == |BOUNDS| || x.ms <= BOUNDS[b])
  }

  lemma BucketsAreBetweenEdges(xs: seq<Sample>, b: nat)
    requires b <= |BOUNDS|
    ensures |Summary(xs).buckets| == |BOUNDS| + 1 && Summary(xs).buckets[b] == Count(xs, BetweenEdges(b))
  {
    forall x | x in xs
      ensures InBucket(b)(x) <==> BetweenEdges(b)(x)
    {
      BucketIsBetweenEdges(x.ms, b);
    }
    CountMonotone(xs, InBucket(b), BetweenEdges(b));
    CountMonotone(xs, BetweenEdges(b), InBucket(b));
  }

  /** One more request: every counter moves as the code moves it. */
  method Observe(stat: Stat, x: Sample, ghost xs: seq<Sample>) returns (r: Stat)
    requires stat == Summary(xs)
    ensures r == Summary(xs + [x])
  {
    var class' := StatusClass(x.status);
    var index := BucketIndex(x.ms);
    var byClass := stat.byClass[class' := Reported(stat.byClass, class') + 1];
    var buckets := stat.buckets[index := stat.buckets[index] + 1];
    var maxMs := stat.maxMs;
    if x.ms > maxMs {
      maxMs := x.ms;
    }
    r := Stat(stat.requests + 1, byClass, stat.totalMs + x.ms, maxMs, buckets, x.status);
    assert (xs + [x])[..|xs|] == xs;
    SummaryBuckets(xs, x);
    SummaryClasses(xs, x);
  }

  lemma SummaryBuckets(xs: seq<Sample>, x: Sample)
    ensures var b := Bucket(x.ms);
      b <= |BOUNDS| && BucketCounts(xs + [x]) == BucketCounts(xs)[b := BucketCounts(xs)[b] + 1]
  {
  }

  lemma SummaryClasses(xs: seq<Sample>, x: Sample)
    ensures var c := StatusClass(x.status);
      ClassCounts(xs + [x]) == ClassCounts(xs)[c := Reported(ClassCounts(xs), c) + 1]
  {
  }

  /** The latency buckets of a route add up to its requests, and any first few of them to
      the requests no slower than their last edge. */
  lemma {:induction false} BucketsAddUp(xs: seq<Sample>, k: nat)
    requires k <= |BOUNDS| + 1
    ensures Sum(BucketCounts(xs)[..k]) == Count(xs, BucketBelow(k))
    decreases |xs|
  {
    if xs == [] {
      SumOfZeros(BucketCounts(xs)[..k]);
    } else {
      var before, last := xs[..|xs| - 1], xs[|xs| - 1];
      assert xs == before + [last];
      BucketsAddUp(before, k);
      BucketsAddUpNext(before, last, k);
      assert BucketCounts(before + [last])[..k] == BucketCounts(xs)[..k];
    }
  }

  lemma BucketsAddUpNext(xs: seq<Sample>, x: Sample, k: nat)
    requires k <= |BOUNDS| + 1 && Sum(BucketCounts(xs)[..k]) == Count(xs, BucketBelow(k))
    ensures Sum(BucketCounts(xs + [x])[..k]) == Count(xs + [x], BucketBelow(k))
  {
    SummaryBuckets(xs, x);
    CountSnoc(xs, x, BucketBelow(k));
    PrefixAfterUpdate(BucketCounts(xs), Bucket(x.ms), k);
  }

  lemma {:induction false} SumOfZeros(s: seq<nat>)
    requires forall i :: 0 <= i < |s| ==> s[i] == 0
    ensures Sum(s) == 0
  {
    if s != [] {
      SumOfZeros(s[..|s| - 1]);
    }
  }

  lemma {:induction false} CountAll(xs: seq<Sample>, p: Sample -> bool)
    requires forall x :: x in xs ==> p(x)
    ensures Count(xs, p) == |xs|
  {
    if xs != [] {
      CountAll(xs[..|xs| - 1], p);
    }
  }

  lemma AllBucketsAddUpToRequests(xs: seq<Sample>)
    ensures Sum(Summary(xs).buckets) == |xs| == Summary(xs).requests
  {
    var s := BucketCounts(xs);
    assert s[..|BOUNDS| + 1] == s;
    BucketsAddUp(xs, |BOUNDS| + 1);
    CountAll(xs, BucketBelow(|BOUNDS| + 1));
  }

  lemma {:induction false} ClassCountsAddUp(xs: seq<Sample>)
    ensures |xs| == Count(xs, InClass(Informational)) + Count(xs, InClass(Success)) + Count(xs, InClass(Redirection))
                  + Count(xs, InClass(ClientError)) + Count(xs, InClass(ServerError))
    decreases |xs|
  {
    if xs != [] {
      ClassCountsAddUp(xs[..|xs| - 1]);
    }
  }

  lemma ClassesAddUpToRequests(xs: seq<Sample>)
    ensures var byClass := Summary(xs).byClass;
      |xs| == Reported(byClass, Informational) + Reported(byClass, Success) + Reported(byClass, Redirection)
            + Reported(byClass, ClientError) + Reported(byClass, ServerError)
  {
    ClassCountsAddUp(xs);
  }

  // ---------------------------------------------------------------- percentiles

  /** The rank a percentile asks for, rounded up and at least one. */
  function Rank(requests: nat, percentile: nat): nat {
    var target := (requests * percentile + 99) / 100;
    if target < 1 then 1 else target
  }

  /** The value of a rank among these requests, by counting: enough are no slower, too few are faster. */
  predicate HasRank(xs: seq<Sample>, rank: nat, v: int) {
    Count(xs, Under(v)) < rank <= Count(xs, AtMost(v))
  }

  /** The value a percentile stands for: at least that share of the requests are no slower,
      and less than that share are faster, or none is. */
  predicate IsPercentile(xs: seq<Sample>, percentile: nat, v: int) {
    && Occurs(xs, v) && 100 * Count(xs, AtMost(v)) >= percentile * |xs|
    && (100 * Count(xs, Under(v)) < percentile * |xs| || Count(xs, Under(v)) == 0)
  }

  /** No edge separates the two values. */
  ghost predicate BetweenSameEdges(v: int, w: int) {
    forall i :: 0 <= i < |BOUNDS| ==> (v <= BOUNDS[i] <==> w <= BOUNDS[i])
  }

  lemma {:induction false} OccurringIsCounted(xs: seq<Sample>, v: int)
    requires Occurs(xs, v)
    ensures Count(xs, AtMost(v)) >= 1
    decreases |xs|
  {
    var n := |xs| - 1;
    if xs[n].ms != v {
      assert forall x :: x in xs ==> x in xs[..n] || x == xs[n];
      OccurringIsCounted(xs[..n], v);
    }
  }

  /** The rank the code asks for is the rank of that value, and of no other. */
  lemma RankIsPercentile(xs: seq<Sample>, percentile: nat, v: int)
    requires Occurs(xs, v)
    ensures HasRank(xs, Rank(|xs|, percentile), v) <==> IsPercentile(xs, percentile, v)
  {
    OccurringIsCounted(xs, v);
    RoundsUp(|xs| * percentile, Count(xs, AtMost(v)));
    RoundsUp(|xs| * percentile, Count(xs, Under(v)));
  }

  lemma RoundsUp(share: nat, count: nat)
    ensures count >= (share + 99) / 100 <==> 100 * count >= share
  {
  }

  /** The upper edge of the bucket the percentile falls in, or the slowest response past the last edge. */
  method PercentileMS(buckets: seq<nat>, requests: nat, percentile: nat, maxMs: int) returns (v: int)
    requires |buckets| == |BOUNDS| + 1
    ensures requests == 0 ==> v == 0
    ensures requests > 0 ==> v == EdgeReached(buckets, Rank(requests, percentile), maxMs, 0)
    ensures Reports(v, buckets, requests, percentile, maxMs)
  {
    PercentileIsReported(buckets, requests, percentile, maxMs);
    if requests == 0 {
      return 0;
    }
    var target := (requests * percentile + 99) / 100;
    if target < 1 {
      target := 1;
    }
    var seen, index := 0, 0;
    while index < |buckets|
      invariant index <= |buckets| && seen == Sum(buckets[..index])
      invariant EdgeReached(buckets, target, maxMs, 0) == EdgeReached(buckets, target, maxMs, index)
    {
      seen := seen + buckets[index];
      assert buckets[..index + 1][..index] == buckets[..index];
      if seen >= target {
        if index < |BOUNDS| {
          return BOUNDS[index];
        }
        break;
      }
      index := index + 1;
    }
    return maxMs;
  }

  /** The edge of the first bucket, from `index` on, at which the running sum reaches the rank. */
  function EdgeReached(buckets: seq<nat>, rank: nat, maxMs: int, index: nat): int
    requires |buckets| == |BOUNDS| + 1 && index <= |buckets|
    decreases |buckets| - index
  {
    if index >= |BOUNDS| then maxMs
    else if Sum(buckets[..index + 1]) >= rank then BOUNDS[index]
    else EdgeReached(buckets, rank, maxMs, index + 1)
  }

  /** The running sum reaches the rank of a value exactly at that value's bucket. */
  lemma RankReachedAtBucket(xs: seq<Sample>, rank: nat, v: int, index: nat)
    requires HasRank(xs, rank, v) && index <= |BOUNDS|
    ensures Sum(BucketCounts(xs)[..index + 1]) >= rank <==> index >= Bucket(v)
  {
    BucketsAddUp(xs, index + 1);
    if index >= Bucket(v) {
      forall x | x in xs && x.ms <= v
        ensures Bucket(x.ms) < index + 1
      {
        BucketOrders(x.ms, v);
      }
      CountMonotone(xs, AtMost(v), BucketBelow(index + 1));
    } else {
      forall x | x in xs && Bucket(x.ms) < index + 1
        ensures x.ms < v
      {
        BucketOrders(x.ms, v);
      }
      CountMonotone(xs, BucketBelow(index + 1), Under(v));
    }
  }

  lemma {:induction false} EdgeReachedIsBucketEdge(xs: seq<Sample>, rank: nat, v: int, index: nat)
    requires HasRank(xs, rank, v) && index <= Bucket(v)
    ensures EdgeReached(BucketCounts(xs), rank, MaxMs(xs), index) == if Bucket(v) < |BOUNDS| then BOUNDS[Bucket(v)] else MaxMs(xs)
    decreases |BOUNDS| - index
  {
    if index < |BOUNDS| {
      RankReachedAtBucket(xs, rank, v, index);
      if index < Bucket(v) {
        EdgeReachedIsBucketEdge(xs, rank, v, index + 1);
      }
    }
  }

  /** The reported percentile is never below the value the percentile stands for, and no
      edge lies between them. */
  lemma {:induction false} PercentileBoundsTrueValue(xs: seq<Sample>, percentile: nat, v: int)
    requires IsPercentile(xs, percentile, v)
    ensures var p := EdgeReached(BucketCounts(xs), Rank(|xs|, percentile), MaxMs(xs), 0);
      p >= v && Bucket(p) == Bucket(v) && BetweenSameEdges(v, p) && (p in BOUNDS || (v > 5000 && p == MaxMs(xs)))
  {
    RankIsPercentile(xs, percentile, v);
    EdgeReachedIsBucketEdge(xs, Rank(|xs|, percentile), v, 0);
    if Bucket(v) < |BOUNDS| {
      EdgeIsInItsBucket(Bucket(v));
    } else {
      BucketOrders(v, MaxMs(xs));
    }
    SameBucketSameEdges(v, EdgeReached(BucketCounts(xs), Rank(|xs|, percentile), MaxMs(xs), 0));
  }

  /** `v` stands for the percentile of every list of requests with these counters. */
  ghost predicate Reports(v: int, buckets: seq<nat>, requests: nat, percentile: nat, maxMs: int) {
    forall xs, w ::
      IsPercentile(xs, percentile, w) && requests == |xs| && buckets == BucketCounts(xs) && maxMs == MaxMs(xs)
      ==> w <= v && BetweenSameEdges(w, v) && (v in BOUNDS || (w > 5000 && v == maxMs))
  }

  lemma PercentileIsReported(buckets: seq<nat>, requests: nat, percentile: nat, maxMs: int)
    requires |buckets| == |BOUNDS| + 1
    ensures Reports(EdgeReached(buckets, Rank(requests, percentile), maxMs, 0), buckets, requests, percentile, maxMs)
    ensures requests == 0 ==> Reports(0, buckets, requests, percentile, maxMs)
  {
    var v := EdgeReached(buckets, Rank(requests, percentile), maxMs, 0);
    forall xs, w | IsPercentile(xs, percentile, w) && requests == |xs| && buckets == BucketCounts(xs) && maxMs == MaxMs(xs)
      ensures w <= v && BetweenSameEdges(w, v) && (v in BOUNDS || (w > 5000 && v == maxMs))
    {
      PercentileBoundsTrueValue(xs, percentile, w);
    }
  }

  lemma RankIsInRange(requests: nat, percentile: nat)
    requires requests > 0 && percentile <= 100
    ensures 1 <= Rank(requests, percentile) <= requests
  {
  }

  lemma RankIsUnique(xs: seq<Sample>, rank: nat, v: int, w: int)
    requires HasRank(xs, rank, v) && HasRank(xs, rank, w)
    ensures v == w
  {
    if w < v {
      CountMonotone(xs, AtMost(w), Under(v));
    } else if v < w {
      CountMonotone(xs, AtMost(v), Under(w));
    }
  }

  lemma PercentileIsUnique(xs: seq<Sample>, percentile: nat, v: int, w: int)
    requires IsPercentile(xs, percentile, v) && IsPercentile(xs, percentile, w)
    ensures v == w
  {
    RankIsPercentile(xs, percentile, v);
    RankIsPercentile(xs, percentile, w);
    RankIsUnique(xs, Rank(|xs|, percentile), v, w);
  }

  /** There is such a value for every percentile up to a hundred; PercentileIsUnique says there is only one. */
  lemma NearestRankExists(xs: seq<Sample>, percentile: nat) returns (v: int)
    requires xs != [] && percentile <= 100
    ensures IsPercentile(xs, percentile, v)
  {
    var all := AtMost(MaxMs(xs));
    CountAll(xs, all);
    var top := Slowest(xs, all);
    CountMonotone(xs, all, AtMost(top));
    RankIsInRange(|xs|, percentile);
    v := RankBelow(xs, Rank(|xs|, percentile), top);
    RankIsPercentile(xs, percentile, v);
  }

  lemma {:induction false} RankBelow(xs: seq<Sample>, rank: nat, top: int) returns (v: int)
    requires 1 <= rank <= Count(xs, AtMost(top)) && Occurs(xs, top)
    ensures Occurs(xs, v) && HasRank(xs, rank, v)
    decreases Count(xs, AtMost(top))
  {
    if Count(xs, Under(top)) < rank {
      v := top;
    } else {
      var next := Slowest(xs, Under(top));
      CountMonotone(xs, Under(top), AtMost(next));
      FewerBelow(xs, top, next);
      v := RankBelow(xs, rank, next);
    }
  }

  /** The slowest sample among those a predicate picks. */
  lemma {:induction false} Slowest(xs: seq<Sample>, p: Sample -> bool) returns (v: int)
    requires Count(xs, p) > 0
    ensures (exists x :: x in xs && p(x) && x.ms == v) && forall x :: x in xs && p(x) ==> x.ms <= v
    decreases |xs|
  {
    var n := |xs| - 1;
    assert forall x :: x in xs ==> x in xs[..n] || x == xs[n];
    if Count(xs[..n], p) > 0 {
      v := Slowest(xs[..n], p);
      if p(xs[n]) && xs[n].ms > v {
        v := xs[n].ms;
      }
    } else {
      v := xs[n].ms;
      NoneCounted(xs[..n], p);
    }
  }

  lemma {:induction false} NoneCounted(xs: seq<Sample>, p: Sample -> bool)
    requires Count(xs, p) == 0
    ensures forall x :: x in xs ==> !p(x)
    decreases |xs|
  {
    if xs != [] {
      NoneCounted(xs[..|xs| - 1], p);
      assert forall x :: x in xs ==> x in xs[..|xs| - 1] || x == xs[|xs| - 1];
    }
  }

  lemma {:induction false} FewerBelow(xs: seq<Sample>, top: int, next: int)
    requires next < top && Occurs(xs, top)
    ensures Count(xs, AtMost(next)) < Count(xs, AtMost(top))
    decreases |xs|
  {
    var n := |xs| - 1;
    if xs[n].ms == top {
      CountMonotone(xs[..n], AtMost(next), AtMost(top));
    } else {
      assert forall x :: x in xs ==> x in xs[..n] || x == xs[n];
      FewerBelow(xs[..n], top, next);
    }
  }
}
