/** The traffic counters of one process, against the requests it has finished: which route
    counts a request, what the counters of a route then are, and what the report says of each
    route and of all of them together. */
module Traffic {
  import opened Common
  import opened Latency
  import opened TrafficOrder

  const MAX_ROUTES: nat := 512

  const OVERFLOW := RouteKey("*", "overflow")

  /** One finished request and the route it matched. */
  datatype Finish = Finish(key: RouteKey, sample: Sample)

  // ---------------------------------------------------------------- which route counts a request

  /** Its own route, unless that would be a new one in a full table. */
  function Place(log: map<RouteKey, seq<Sample>>, key: RouteKey, limit: nat): RouteKey {
    if key !in log && |log| >= limit then OVERFLOW else key
  }

  /** The requests each route counts. */
  function Assigned(history: seq<Finish>, limit: nat): map<RouteKey, seq<Sample>> {
    if history == [] then map[]
    else
      var log, last := Assigned(history[..|history| - 1], limit), history[|history| - 1];
      Add(log, Place(log, last.key, limit), last.sample)
  }

  function Add(log: map<RouteKey, seq<Sample>>, key: RouteKey, x: Sample): map<RouteKey, seq<Sample>> {
    log[key := (if key in log then log[key] else []) + [x]]
  }

  function Samples(history: seq<Finish>): seq<Sample> {
    if history == [] then [] else Samples(history[..|history| - 1]) + [history[|history| - 1].sample]
  }

  /** Count over a set of routes. */
  ghost function CountOver(keys: set<RouteKey>, log: map<RouteKey, seq<Sample>>, p: Sample -> bool): nat
    requires keys <= log.Keys
  {
    if keys == {} then 0
    else
      var k :| k in keys;
      Count(log[k], p) + CountOver(keys - {k}, log, p)
  }

  /** Any route may be counted first. */
  lemma {:induction false} CountOverRemove(keys: set<RouteKey>, log: map<RouteKey, seq<Sample>>, p: Sample -> bool, k: RouteKey)
    requires keys <= log.Keys && k in keys
    ensures CountOver(keys, log, p) == Count(log[k], p) + CountOver(keys - {k}, log, p)
    decreases |keys|
  {
    var first :| first in keys && CountOver(keys, log, p) == Count(log[first], p) + CountOver(keys - {first}, log, p);
    if first != k {
      CountOverRemove(keys - {first}, log, p, k);
      CountOverRemove(keys - {k}, log, p, first);
      assert keys - {first} - {k} == keys - {k} - {first};
    }
  }

  lemma {:induction false} CountOverSame(keys: set<RouteKey>, a: map<RouteKey, seq<Sample>>, b: map<RouteKey, seq<Sample>>, p: Sample -> bool)
    requires keys <= a.Keys && keys <= b.Keys && forall k :: k in keys ==> a[k] == b[k]
    ensures CountOver(keys, a, p) == CountOver(keys, b, p)
    decreases |keys|
  {
    if keys != {} {
      var k :| k in keys;
      CountOverRemove(keys, a, p, k);
      CountOverRemove(keys, b, p, k);
      CountOverSame(keys - {k}, a, b, p);
    }
  }

  /** Adding one request to one route adds it to the count over all. */
  lemma CountAfterPlacing(log: map<RouteKey, seq<Sample>>, key: RouteKey, x: Sample, p: Sample -> bool)
    ensures var after := Add(log, key, x);
      CountOver(after.Keys, after, p) == CountOver(log.Keys, log, p) + if p(x) then 1 else 0
  {
    var xs := if key in log then log[key] else [];
    var after := log[key := xs + [x]];
    var rest := log.Keys - {key};
    CountSnoc(xs, x, p);
    CountOverRemove(after.Keys, after, p, key);
    assert after.Keys - {key} == rest;
    CountOverSame(rest, after, log, p);
    if key in log {
      CountOverRemove(log.Keys, log, p, key);
    } else {
      assert rest == log.Keys;
    }
  }

  /** Whatever is counted, counting it route by route counts each finished request once. */
  lemma {:induction false} RoutesPartitionRequests(history: seq<Finish>, limit: nat, p: Sample -> bool)
    ensures var log := Assigned(history, limit); CountOver(log.Keys, log, p) == Count(Samples(history), p)
    decreases |history|
  {
    if history != [] {
      var n := |history| - 1;
      var log, last := Assigned(history[..n], limit), history[n];
      RoutesPartitionRequests(history[..n], limit, p);
      CountAfterPlacing(log, Place(log, last.key, limit), last.sample, p);
      CountSnoc(Samples(history[..n]), last.sample, p);
    }
  }

  lemma {:induction false} OneSampleEach(history: seq<Finish>)
    ensures |Samples(history)| == |history|
    ensures forall i :: 0 <= i < |history| ==> Samples(history)[i] == history[i].sample
  {
    if history != [] {
      OneSampleEach(history[..|history| - 1]);
    }
  }

  // ---------------------------------------------------------------- which requests a route counted

  ghost function KeysIn(history: seq<Finish>): set<RouteKey> {
    set f | f in history :: f.key
  }

  predicate AtRoute(f: Finish, routes: set<RouteKey>, k: RouteKey) {
    f.key == k || (k == OVERFLOW && f.key !in routes)
  }

  /** The requests whose route is `k`, or, for the overflow route, that have no route of their own. */
  function RequestsAt(history: seq<Finish>, routes: set<RouteKey>, k: RouteKey): seq<Sample> {
    if history == [] then []
    else
      var before, last := RequestsAt(history[..|history| - 1], routes, k), history[|history| - 1];
      if AtRoute(last, routes, k) then before + [last.sample] else before
  }

  /** Every route of the table is one requested, or the overflow route; one requested and not
      in it found the table full. */
  ghost predicate CoversRequested(asked: set<RouteKey>, routes: set<RouteKey>, limit: nat) {
    && routes <= asked + {OVERFLOW}
    && (!(asked <= routes) ==> |routes| >= limit && OVERFLOW in routes)
  }

  ghost predicate CountTheirOwn(history: seq<Finish>, log: map<RouteKey, seq<Sample>>) {
    forall k :: k in log ==> log[k] == RequestsAt(history, log.Keys, k)
  }

  lemma {:induction false} RoutesCoverRequested(history: seq<Finish>, limit: nat)
    ensures CoversRequested(KeysIn(history), Assigned(history, limit).Keys, limit)
    decreases |history|
  {
    if history != [] {
      var n := |history| - 1;
      RoutesCoverRequested(history[..n], limit);
      NextCoversRequested(KeysIn(history[..n]), Assigned(history[..n], limit), history[n].key, limit);
      KeysInPrefix(history);
    }
  }

  /** Every route counts, in order, the requests that matched it, and the overflow route also
      those whose route found the table full. */
  lemma {:induction false} RoutesCountTheirOwn(history: seq<Finish>, limit: nat)
    ensures CoversRequested(KeysIn(history), Assigned(history, limit).Keys, limit)
    ensures CountTheirOwn(history, Assigned(history, limit))
    decreases |history|
  {
    RoutesCoverRequested(history, limit);
    if history != [] {
      var before, last := history[..|history| - 1], history[|history| - 1];
      RoutesCountTheirOwn(before, limit);
      NextCountsItsOwn(before, Assigned(before, limit), last, limit);
      assert before + [last] == history;
    }
  }

  lemma NextCoversRequested(asked: set<RouteKey>, log: map<RouteKey, seq<Sample>>, key: RouteKey, limit: nat)
    requires CoversRequested(asked, log.Keys, limit)
    ensures CoversRequested(asked + {key}, log.Keys + {Place(log, key, limit)}, limit)
  {
    assert |log| == |log.Keys|;
    SubsetIsNoLarger(log.Keys, log.Keys + {Place(log, key, limit)});
  }

  lemma NextCountsItsOwn(history: seq<Finish>, log: map<RouteKey, seq<Sample>>, f: Finish, limit: nat)
    requires CoversRequested(KeysIn(history), log.Keys, limit) && CountTheirOwn(history, log)
    ensures CountTheirOwn(history + [f], Add(log, Place(log, f.key, limit), f.sample))
  {
    var key := Place(log, f.key, limit);
    var after := Add(log, key, f.sample);
    assert after.Keys == log.Keys + {key};
    PlaceIsNew(KeysIn(history), log, f.key, limit);
    forall k | k in after
      ensures after[k] == RequestsAt(history + [f], after.Keys, k)
    {
      RequestsAsBefore(history, log, key, k);
      RequestsAtNext(history, f, after.Keys, k);
    }
  }

  /** A route not yet in the table was not requested before; the overflow route is added when
      all requested before are in the table. */
  ghost predicate IsNew(asked: set<RouteKey>, routes: set<RouteKey>, key: RouteKey) {
    key in routes || (key !in asked && (key == OVERFLOW ==> asked <= routes))
  }

  lemma PlaceIsNew(asked: set<RouteKey>, log: map<RouteKey, seq<Sample>>, key: RouteKey, limit: nat)
    requires CoversRequested(asked, log.Keys, limit)
    ensures IsNew(asked, log.Keys, Place(log, key, limit))
  {
    assert |log| == |log.Keys|;
  }

  /** With one more route in the table, the earlier requests at each are those it counted. */
  lemma RequestsAsBefore(history: seq<Finish>, log: map<RouteKey, seq<Sample>>, key: RouteKey, k: RouteKey)
    requires CountTheirOwn(history, log) && (k in log || k == key)
    requires IsNew(KeysIn(history), log.Keys, key)
    ensures RequestsAt(history, log.Keys + {key}, k) == if k in log then log[k] else []
  {
    SameRequestsAt(history, log.Keys, log.Keys + {key}, k);
    if k !in log {
      NoRequestsAt(history, log.Keys, k);
    }
  }

  lemma RequestsAtNext(history: seq<Finish>, f: Finish, routes: set<RouteKey>, k: RouteKey)
    ensures RequestsAt(history + [f], routes, k) == RequestsAt(history, routes, k) + if AtRoute(f, routes, k) then [f.sample] else []
  {
    assert (history + [f])[..|history|] == history;
  }

  lemma KeysInPrefix(history: seq<Finish>)
    requires history != []
    ensures KeysIn(history) == KeysIn(history[..|history| - 1]) + {history[|history| - 1].key}
  {
    assert history == history[..|history| - 1] + [history[|history| - 1]];
  }

  /** A route that is new to the table matters to nobody before it. */
  lemma {:induction false} SameRequestsAt(history: seq<Finish>, routes: set<RouteKey>, more: set<RouteKey>, k: RouteKey)
    requires routes <= more && forall x :: x in more - routes ==> x == OVERFLOW || x !in KeysIn(history)
    ensures RequestsAt(history, routes, k) == RequestsAt(history, more, k)
    decreases |history|
  {
    if history != [] {
      var n := |history| - 1;
      KeysInPrefix(history);
      SameRequestsAt(history[..n], routes, more, k);
    }
  }

  lemma {:induction false} NoRequestsAt(history: seq<Finish>, routes: set<RouteKey>, k: RouteKey)
    requires k !in KeysIn(history) && (k == OVERFLOW ==> KeysIn(history) <= routes)
    ensures RequestsAt(history, routes, k) == []
    decreases |history|
  {
    if history != [] {
      var n := |history| - 1;
      KeysInPrefix(history);
      NoRequestsAt(history[..n], routes, k);
    }
  }

  /** However many routes are requested, the table holds at most one more than its limit. */
  lemma {:induction false} RoutesAreBounded(history: seq<Finish>, limit: nat)
    ensures var log := Assigned(history, limit); |log| <= limit || (|log| == limit + 1 && OVERFLOW in log)
    decreases |history|
  {
    if history != [] {
      var n := |history| - 1;
      RoutesAreBounded(history[..n], limit);
      var log := Assigned(history[..n], limit);
      var key := Place(log, history[n].key, limit);
      var after := Assigned(history, limit);
      assert after.Keys == log.Keys + {key};
      assert |after| == |after.Keys| && |log| == |log.Keys|;
    }
  }

  // ---------------------------------------------------------------- the report

  /** Integer division that truncates toward zero. */
  function Quotient(a: int, b: int): int
    requires b > 0
  {
    if a >= 0 then a / b else -(-a / b)
  }

  /** The remainder is smaller than the divisor and has the dividend's sign. */
  predicate TruncatesTo(a: int, b: int, q: int) {
    var rest := a - q * b;
    if a >= 0 then 0 <= rest < b else -b < rest <= 0
  }

  lemma QuotientTruncates(a: int, b: int)
    requires b > 0
    ensures TruncatesTo(a, b, Quotient(a, b))
  {
    DivisionLeaves(if a >= 0 then a else -a, b);
    if a < 0 {
      assert Quotient(a, b) * b == -((-a / b) * b);
    }
  }

  lemma DivisionLeaves(size: nat, b: nat)
    requires b > 0
    ensures 0 <= size - (size / b) * b < b
  {
    assert size == (size / b) * b + size % b;
  }

  /** What a route's record says, in terms of the requests it counted. */
  ghost predicate Describes(r: Record, key: RouteKey, xs: seq<Sample>) {
    && xs != [] && r.key == key && r.requests == |xs| && r.byClass == ClassCounts(xs)
    && r.meanMs == Quotient(TotalMs(xs), |xs|) && r.maxMs == MaxMs(xs)
    && r.p95Ms == EdgeReached(BucketCounts(xs), Rank(|xs|, 95), MaxMs(xs), 0)
    && Reports(r.p95Ms, r.buckets, |xs|, 95, r.maxMs) && TruncatesTo(TotalMs(xs), |xs|, r.meanMs)
    && r.buckets == BucketCounts(xs) && r.lastStatus == xs[|xs| - 1].status
  }

  ghost function KeysOf(records: seq<Record>): set<RouteKey> {
    set r | r in records :: r.key
  }

  method DescribeRoute(key: RouteKey, stat: Stat, ghost xs: seq<Sample>) returns (r: Record)
    requires xs != [] && stat == Summary(xs)
    ensures Describes(r, key, xs)
  {
    var p95 := PercentileMS(stat.buckets, stat.requests, 95, stat.maxMs);
    var mean := if stat.requests > 0 then Quotient(stat.totalMs, stat.requests) else 0;
    QuotientTruncates(stat.totalMs, stat.requests);
    r := Record(key, stat.requests, stat.byClass, mean, stat.maxMs, p95, stat.buckets, stat.lastStatus);
  }

  predicate SumsAt(sum: map<Class, nat>, a: map<Class, nat>, b: map<Class, nat>, c: Class) {
    Reported(sum, c) == Reported(a, c) + Reported(b, c)
  }

  ghost predicate Sums(sum: map<Class, nat>, a: map<Class, nat>, b: map<Class, nat>) {
    forall c: Class :: SumsAt(sum, a, b, c)
  }

  /** Add one route's class counts to the overall ones. */
  method AddClasses(overall: map<Class, nat>, byClass: map<Class, nat>) returns (sum: map<Class, nat>)
    ensures Sums(sum, overall, byClass)
  {
    sum := overall;
    var todo := byClass.Keys;
    while todo != {}
      invariant todo <= byClass.Keys
      invariant forall c: Class :: Reported(sum, c) == Reported(overall, c) + if c in todo then 0 else Reported(byClass, c)
      decreases |todo|
    {
      var c :| c in todo;
      sum := sum[c := Reported(sum, c) + byClass[c]];
      todo := todo - {c};
    }
  }

  // ---------------------------------------------------------------- the counters

  /** Each route's counters are those of the requests it counted. */
  ghost predicate Mirrors(routes: map<RouteKey, Stat>, log: map<RouteKey, seq<Sample>>) {
    && routes.Keys == log.Keys
    && (forall k :: k in log ==> log[k] != [] && routes[k] == Summary(log[k]))
  }

  lemma AssignedSnoc(history: seq<Finish>, f: Finish, limit: nat)
    ensures var log := Assigned(history, limit);
      Assigned(history + [f], limit) == Add(log, Place(log, f.key, limit), f.sample)
  {
  }

  /** The route the counters choose is the one the history says. */
  lemma SamePlace(routes: map<RouteKey, Stat>, log: map<RouteKey, seq<Sample>>, key: RouteKey)
    requires Mirrors(routes, log)
    ensures Place(log, key, MAX_ROUTES) == if key !in routes && |routes| >= MAX_ROUTES then OVERFLOW else key
  {
  }

  function StatAt(routes: map<RouteKey, Stat>, key: RouteKey): Stat {
    if key in routes then routes[key] else UNUSED
  }

  ghost function SamplesAt(log: map<RouteKey, seq<Sample>>, key: RouteKey): seq<Sample> {
    if key in log then log[key] else []
  }

  lemma StatAtIsSummary(routes: map<RouteKey, Stat>, log: map<RouteKey, seq<Sample>>, key: RouteKey)
    requires Mirrors(routes, log)
    ensures StatAt(routes, key) == Summary(SamplesAt(log, key))
  {
  }

  lemma MirrorsAfter(routes: map<RouteKey, Stat>, log: map<RouteKey, seq<Sample>>, key: RouteKey, x: Sample, stat: Stat)
    requires Mirrors(routes, log) && stat == Summary(SamplesAt(log, key) + [x])
    ensures Mirrors(routes[key := stat], Add(log, key, x))
  {
    assert Add(log, key, x)[key] == SamplesAt(log, key) + [x];
  }

  function Everything(): Sample -> bool { (_: Sample) => true }

  lemma {:induction false} TotalsOverRoutes(history: seq<Finish>, c: Class)
    ensures var log := Assigned(history, MAX_ROUTES);
      CountOver(log.Keys, log, Everything()) == |history| && CountOver(log.Keys, log, InClass(c)) == Count(Samples(history), InClass(c))
  {
    RoutesPartitionRequests(history, MAX_ROUTES, Everything());
    CountAll(Samples(history), Everything());
    OneSampleEach(history);
    RoutesPartitionRequests(history, MAX_ROUTES, InClass(c));
  }

  /** Count one request on its route, or on the overflow route of a full table. */
  method CountRequest(routes: map<RouteKey, Stat>, key: RouteKey, sample: Sample, ghost history: seq<Finish>)
    returns (after: map<RouteKey, Stat>)
    requires Mirrors(routes, Assigned(history, MAX_ROUTES))
    ensures Mirrors(after, Assigned(history + [Finish(key, sample)], MAX_ROUTES))
  {
    ghost var log := Assigned(history, MAX_ROUTES);
    var at := key;
    if key !in routes && |routes| >= MAX_ROUTES {
      at := OVERFLOW;
    }
    SamePlace(routes, log, key);
    StatAtIsSummary(routes, log, at);
    var stat := Observe(StatAt(routes, at), sample, SamplesAt(log, at));
    MirrorsAfter(routes, log, at, sample, stat);
    after := routes[at := stat];
    AssignedSnoc(history, Finish(key, sample), MAX_ROUTES);
  }

  // ---------------------------------------------------------------- walking the routes

  /** The records describe, one each, exactly the routes not left. */
  ghost predicate Covers(records: seq<Record>, log: map<RouteKey, seq<Sample>>, left: set<RouteKey>) {
    && KeysOf(records) == log.Keys - left && |records| + |left| == |log|
    && forall r :: r in records ==> r.key in log && Describes(r, r.key, log[r.key])
  }

  lemma CoversAfter(records: seq<Record>, r: Record, log: map<RouteKey, seq<Sample>>, left: set<RouteKey>)
    requires left <= log.Keys && Covers(records, log, left) && r.key in left && Describes(r, r.key, log[r.key])
    ensures Covers(records + [r], log, left - {r.key})
  {
    KeysOfSnoc(records, r);
  }

  lemma KeysOfSnoc(records: seq<Record>, r: Record)
    ensures KeysOf(records + [r]) == KeysOf(records) + {r.key}
  {
  }

  /** A total that lacks only the routes left. */
  ghost predicate Lacks(sum: nat, log: map<RouteKey, seq<Sample>>, left: set<RouteKey>, p: Sample -> bool) {
    left <= log.Keys && sum + CountOver(left, log, p) == CountOver(log.Keys, log, p)
  }

  ghost predicate ClassesLack(overall: map<Class, nat>, log: map<RouteKey, seq<Sample>>, left: set<RouteKey>) {
    forall c: Class :: Lacks(Reported(overall, c), log, left, InClass(c))
  }

  lemma ClassesLackAfter(overall: map<Class, nat>, sum: map<Class, nat>, log: map<RouteKey, seq<Sample>>, left: set<RouteKey>, k: RouteKey)
    requires ClassesLack(overall, log, left) && left <= log.Keys && k in left
    requires var byClass := ClassCounts(log[k]); Sums(sum, overall, byClass)
    ensures ClassesLack(sum, log, left - {k})
  {
    forall c: Class
      ensures Lacks(Reported(sum, c), log, left - {k}, InClass(c))
    {
      assert Lacks(Reported(overall, c), log, left, InClass(c));
      CountOverRemove(left, log, InClass(c), k);
      assert SumsAt(sum, overall, ClassCounts(log[k]), c);
    }
  }

  /** Visit every route once, in any order. */
  method Tabulate(routes: map<RouteKey, Stat>, ghost log: map<RouteKey, seq<Sample>>)
    returns (records: seq<Record>, total: nat, overall: map<Class, nat>)
    requires Mirrors(routes, log)
    ensures Covers(records, log, {}) && Lacks(total, log, {}, Everything()) && ClassesLack(overall, log, {})
  {
    records, total, overall := [], 0, map[];
    var left := routes.Keys;
    while left != {}
      invariant left <= log.Keys
      invariant Covers(records, log, left)
      invariant Lacks(total, log, left, Everything())
      invariant ClassesLack(overall, log, left)
      decreases |left|
    {
      var key :| key in left;
      var stat := routes[key];
      var r := DescribeRoute(key, stat, log[key]);
      CoversAfter(records, r, log, left);
      CountOverRemove(left, log, Everything(), key);
      CountAll(log[key], Everything());
      var sum := AddClasses(overall, stat.byClass);
      ClassesLackAfter(overall, sum, log, left, key);
      records, total, overall := records + [r], total + stat.requests, sum;
      left := left - {key};
    }
  }

  lemma SortingKeepsCovers(records: seq<Record>, sorted: seq<Record>, log: map<RouteKey, seq<Sample>>)
    requires Covers(records, log, {}) && SameRecords(records, sorted)
    ensures Covers(sorted, log, {})
  {
    assert KeysOf(sorted) == KeysOf(records);
  }

  /** As many records as routes, covering every route, are of different routes. */
  lemma CoveringRoutesDiffer(records: seq<Record>, log: map<RouteKey, seq<Sample>>)
    requires Covers(records, log, {})
    ensures DistinctRoutes(records)
  {
    assert log.Keys - {} == log.Keys && |log| == |log.Keys|;
    FullCoverIsDistinct(records);
  }

  lemma {:induction false} FullCoverIsDistinct(records: seq<Record>)
    ensures |KeysOf(records)| <= |records|
    ensures |KeysOf(records)| == |records| ==> DistinctRoutes(records)
    decreases |records|
  {
    if records != [] {
      var n := |records| - 1;
      var before, last := records[..n], records[n];
      assert records == before + [last];
      FullCoverIsDistinct(before);
      KeysOfSnoc(before, last);
      if last.key in KeysOf(before) {
        assert KeysOf(before) + {last.key} == KeysOf(before);
      } else {
        DistinctSnoc(before, last);
      }
    }
  }

  lemma DistinctSnoc(records: seq<Record>, r: Record)
    requires r.key !in KeysOf(records)
    ensures DistinctRoutes(records) ==> DistinctRoutes(records + [r])
  {
    assert forall i :: 0 <= i < |records| ==> records[i] in records && records[i].key in KeysOf(records);
  }

  lemma {:induction false} ReportTotals(history: seq<Finish>, total: nat, overall: map<Class, nat>)
    requires var log := Assigned(history, MAX_ROUTES); Lacks(total, log, {}, Everything()) && ClassesLack(overall, log, {})
    ensures total == |history| && forall c: Class :: Reported(overall, c) == Count(Samples(history), InClass(c))
  {
    var log := Assigned(history, MAX_ROUTES);
    TotalsOverRoutes(history, Success);
    forall c: Class
      ensures Reported(overall, c) == Count(Samples(history), InClass(c))
    {
      TotalsOverRoutes(history, c);
      assert Lacks(Reported(overall, c), log, {}, InClass(c));
    }
  }

  /** Each record describes the requests that matched its route. */
  ghost predicate DescribesOwn(records: seq<Record>, history: seq<Finish>) {
    forall r :: r in records ==> Describes(r, r.key, RequestsAt(history, KeysOf(records), r.key))
  }

  lemma RecordsCoverTheirOwn(records: seq<Record>, history: seq<Finish>)
    requires Covers(records, Assigned(history, MAX_ROUTES), {})
    ensures DescribesOwn(records, history) && CoversRequested(KeysIn(history), KeysOf(records), MAX_ROUTES)
  {
    RoutesCountTheirOwn(history, MAX_ROUTES);
    assert KeysOf(records) == Assigned(history, MAX_ROUTES).Keys;
  }

  class Counters {
    var routes: map<RouteKey, Stat>
    var inFlight: int
    ghost var begun: nat
    ghost var history: seq<Finish>

    ghost predicate Valid()
      reads this
    {
      Mirrors(routes, Assigned(history, MAX_ROUTES)) && inFlight == begun - |history|
    }

    constructor ()
      ensures Valid() && begun == 0 && history == []
    {
      routes, inFlight, begun, history := map[], 0, 0, [];
    }

    method Begin()
      requires Valid()
      modifies this
      ensures Valid() && begun == old(begun) + 1 && history == old(history)
    {
      inFlight, begun := inFlight + 1, begun + 1;
    }

    method RecordFinish(key: RouteKey, sample: Sample)
      requires Valid()
      modifies this
      ensures Valid() && begun == old(begun) && history == old(history) + [Finish(key, sample)]
    {
      inFlight := inFlight - 1;
      routes := CountRequest(routes, key, sample, history);
      history := history + [Finish(key, sample)];
    }

    /** One record per route, and totals that count every finished request once. */
    method Report() returns (records: seq<Record>, total: nat, overall: map<Class, nat>)
      requires Valid()
      ensures Covers(records, Assigned(history, MAX_ROUTES), {}) && |records| <= MAX_ROUTES + 1 && Ordered(records)
      ensures DescribesOwn(records, history) && CoversRequested(KeysIn(history), KeysOf(records), MAX_ROUTES)
      ensures forall i, j :: 0 <= i < j < |records| ==> ReadsBefore(records[i], records[j])
      ensures total == |history|
      ensures forall c: Class :: Reported(overall, c) == Count(Samples(history), InClass(c))
    {
      var unsorted: seq<Record>;
      unsorted, total, overall := Tabulate(routes, Assigned(history, MAX_ROUTES));
      CoveringRoutesDiffer(unsorted, Assigned(history, MAX_ROUTES));
      records := SortRecords(unsorted);
      SortingKeepsCovers(unsorted, records, Assigned(history, MAX_ROUTES));
      ReportTotals(history, total, overall);
      RoutesAreBounded(history, MAX_ROUTES);
      RecordsCoverTheirOwn(records, history);
    }
  }
}
