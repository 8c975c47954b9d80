/** The rows of a traffic report and their order. */
module TrafficOrder {
  import opened Common
  import opened Latency

  datatype RouteKey = RouteKey(method': string, pattern: string)

  datatype Record = Record(
    key: RouteKey, requests: nat, byClass: map<Class, nat>, meanMs: int, maxMs: int, p95Ms: int, buckets: seq<nat>, lastStatus: int)

  /** Busiest first, then by pattern, then by method. */
  predicate Before(a: Record, b: Record) {
    || a.requests > b.requests
    || (a.requests == b.requests
        && (TextLess(a.key.pattern, b.key.pattern)
            || (a.key.pattern == b.key.pattern && TextLess(a.key.method', b.key.method'))))
  }

  /** Busier, or as busy with a pattern that comes first in the dictionary, or one with the
      same pattern whose method does. */
  ghost predicate ReadsBefore(a: Record, b: Record) {
    && a.requests >= b.requests
    && (a.requests == b.requests ==> a.key.pattern == b.key.pattern || Dictionary(a.key.pattern, b.key.pattern))
    && (a.requests == b.requests && a.key.pattern == b.key.pattern ==> Dictionary(a.key.method', b.key.method'))
  }

  lemma BeforeReadsBefore(a: Record, b: Record)
    ensures Before(a, b) ==> ReadsBefore(a, b)
  {
    TextOrderIsDictionary(a.key.pattern, b.key.pattern);
    TextOrderIsDictionary(a.key.method', b.key.method');
    TextOrderIsTotal(a.key.pattern, b.key.pattern);
  }

  ghost predicate Ordered(records: seq<Record>) {
    forall i, j :: 0 <= i < j < |records| ==> Before(records[i], records[j])
  }

  ghost predicate DistinctRoutes(records: seq<Record>) {
    forall i, j :: 0 <= i < j < |records| ==> records[i].key != records[j].key
  }

  /** The same records, as many of them. */
  ghost predicate SameRecords(a: seq<Record>, b: seq<Record>) {
    |a| == |b| && forall r :: r in a <==> r in b
  }

  lemma BeforeIsTotal(a: Record, b: Record)
    requires a.key != b.key
    ensures Before(a, b) || Before(b, a)
  {
    TextOrderIsTotal(a.key.pattern, b.key.pattern);
    TextOrderIsTotal(a.key.method', b.key.method');
  }

  lemma BeforeIsTransitive(a: Record, b: Record, c: Record)
    requires Before(a, b) && Before(b, c)
    ensures Before(a, c)
  {
    if TextLess(a.key.pattern, b.key.pattern) && TextLess(b.key.pattern, c.key.pattern) {
      TextOrderIsTransitive(a.key.pattern, b.key.pattern, c.key.pattern);
    }
    if TextLess(a.key.method', b.key.method') && TextLess(b.key.method', c.key.method') {
      TextOrderIsTransitive(a.key.method', b.key.method', c.key.method');
    }
  }

  /** Everything before the place comes before r, and everything from it on comes after. */
  ghost predicate PlaceOf(records: seq<Record>, r: Record, at: nat) {
    && at <= |records|
    && (forall i :: 0 <= i < at ==> Before(records[i], r))
    && (forall i :: at <= i < |records| ==> Before(r, records[i]))
  }

  method FindPlace(records: seq<Record>, r: Record) returns (at: nat)
    requires Ordered(records) && forall i :: 0 <= i < |records| ==> records[i].key != r.key
    ensures PlaceOf(records, r, at)
  {
    at := |records|;
    while at > 0 && Before(r, records[at - 1])
      invariant 0 <= at <= |records|
      invariant forall i :: at <= i < |records| ==> Before(r, records[i])
    {
      at := at - 1;
    }
    forall i | 0 <= i < at
      ensures Before(records[i], r)
    {
      BeforeIsTotal(records[at - 1], r);
      if i < at - 1 {
        BeforeIsTransitive(records[i], records[at - 1], r);
      }
    }
  }

  function Inserted(records: seq<Record>, r: Record, at: nat): seq<Record>
    requires at <= |records|
  {
    records[..at] + [r] + records[at..]
  }

  lemma InsertedIsOrdered(records: seq<Record>, r: Record, at: nat)
    requires Ordered(records) && PlaceOf(records, r, at)
    ensures Ordered(Inserted(records, r, at))
  {
  }

  lemma InsertedRecords(records: seq<Record>, r: Record, at: nat, x: Record)
    requires at <= |records|
    ensures x in Inserted(records, r, at) <==> x in records || x == r
  {
    assert records == records[..at] + records[at..];
  }

  /** Sort records of different routes. */
  method SortRecords(records: seq<Record>) returns (sorted: seq<Record>)
    requires DistinctRoutes(records)
    ensures Ordered(sorted) && SameRecords(records, sorted)
    ensures forall i, j :: 0 <= i < j < |sorted| ==> ReadsBefore(sorted[i], sorted[j])
  {
    sorted := [];
    for n := 0 to |records|
      invariant Ordered(sorted) && SameRecords(records[..n], sorted)
    {
      var r := records[n];
      assert forall i :: 0 <= i < |sorted| ==> sorted[i] in sorted && sorted[i] in records[..n];
      var at := FindPlace(sorted, r);
      InsertedIsOrdered(sorted, r, at);
      forall x: Record
        ensures x in Inserted(sorted, r, at) <==> x in sorted || x == r
      {
        InsertedRecords(sorted, r, at, x);
      }
      sorted := Inserted(sorted, r, at);
      assert records[..n + 1] == records[..n] + [r];
    }
    assert records[..|records|] == records;
    forall i, j | 0 <= i < j < |sorted|
      ensures ReadsBefore(sorted[i], sorted[j])
    {
      BeforeReadsBefore(sorted[i], sorted[j]);
    }
  }
}
