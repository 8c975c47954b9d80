/** The application catalog. */
module Catalog {
  import opened Common

  // The contract a browser check vouches for, and the ring that pairs every application with a
  // witness.

  datatype ManagedApp = ManagedApp(
    id: Uuid, slug: string, name: string, description: string, launchURL: string,
    clientID: string, contractHash: string, healthURL: string, monitoringURL: string,
    validationURL: string, signedOutURL: string, releaseRevision: string)

  /** What the code takes from libraries: the origin of a launch URL, absent when
      the URL does not parse, and the SHA-256 digest in hexadecimal. */
  datatype Env = Env(origin: string -> Option<string>, digest: string -> string)

  predicate SameOrigin(env: Env, left: string, right: string) {
    env.origin(left).Some? && env.origin(right).Some? && env.origin(left) == env.origin(right)
  }

  // ---------------------------------------------------------------- contract

  /** The part of a registration an upsert compares: everything but id and slug. */
  predicate SameContract(left: ManagedApp, right: ManagedApp) {
    && left.name == right.name && left.description == right.description
    && left.launchURL == right.launchURL && left.clientID == right.clientID
    && left.contractHash == right.contractHash && left.healthURL == right.healthURL
    && left.monitoringURL == right.monitoringURL && left.validationURL == right.validationURL
    && left.signedOutURL == right.signedOutURL && left.releaseRevision == right.releaseRevision
  }

  function AppFields(app: ManagedApp): (fields: seq<string>) {
    [app.slug, app.name, app.description, app.launchURL, app.clientID, app.contractHash,
     app.healthURL, app.monitoringURL, app.validationURL, app.signedOutURL, app.releaseRevision]
  }

  function WitnessFields(peer: ManagedApp): (fields: seq<string>) {
    [peer.id.text, peer.slug, peer.name, peer.clientID, peer.contractHash,
     peer.launchURL, peer.validationURL, peer.signedOutURL, peer.releaseRevision]
  }

  function ContractFields(app: ManagedApp, peer: Option<ManagedApp>): (fields: seq<string>) {
    AppFields(app) + if peer.Some? then WitnessFields(peer.value) else []
  }

  /** strings.Join with a NUL between fields. */
  function Join(fields: seq<string>): string
    requires |fields| > 0
  {
    if |fields| == 1 then fields[0] else fields[0] + ['\0'] + Join(fields[1..])
  }

  function ContractHash(env: Env, app: ManagedApp, peer: Option<ManagedApp>): string {
    env.digest(Join(ContractFields(app, peer)))
  }

  /** PostgreSQL text cannot hold a NUL, so no column of a stored row does. */
  ghost predicate NulFree(text: string) {
    forall i :: 0 <= i < |text| ==> text[i] != '\0'
  }

  ghost predicate AllNulFree(fields: seq<string>) {
    forall i :: 0 <= i < |fields| ==> NulFree(fields[i])
  }

  ghost predicate Storable(app: ManagedApp) {
    AllNulFree(AppFields(app)) && NulFree(app.id.text)
  }

  ghost predicate CollisionFree(env: Env) {
    forall a, b :: env.digest(a) == env.digest(b) ==> a == b
  }

  /** The first NUL of joined text ends its first field. */
  lemma JoinStartsWithFirstField(fields: seq<string>)
    requires |fields| > 0 && AllNulFree(fields)
    ensures |fields| == 1 ==> Join(fields) == fields[0] && NulFree(Join(fields))
    ensures |fields| > 1 ==>
      && |fields[0]| < |Join(fields)| && Join(fields)[|fields[0]|] == '\0'
      && Join(fields)[..|fields[0]|] == fields[0]
      && Join(fields)[|fields[0]| + 1..] == Join(fields[1..])
      && forall i :: 0 <= i < |fields[0]| ==> Join(fields)[i] != '\0'
  {
  }

  /** Joined text determines its fields, so no two contracts share a digest input. */
  lemma {:induction false} JoinIsInjective(a: seq<string>, b: seq<string>)
    requires |a| > 0 && |b| > 0 && AllNulFree(a) && AllNulFree(b)
    requires Join(a) == Join(b)
    ensures a == b
    decreases |a|
  {
    JoinStartsWithFirstField(a);
    JoinStartsWithFirstField(b);
    assert |a[0]| == |b[0]|;
    if |a| > 1 {
      JoinIsInjective(a[1..], b[1..]);
      assert a == [a[0]] + a[1..] && b == [b[0]] + b[1..];
    }
  }

  /** The witness columns a contract covers agree, or there is no witness in either. */
  predicate SameWitnessColumns(v: Option<ManagedApp>, w: Option<ManagedApp>) {
    && (v.Some? <==> w.Some?)
    && (v.Some? ==>
          var x, y := v.value, w.value;
          && x.id == y.id && x.slug == y.slug && x.name == y.name && x.clientID == y.clientID && x.contractHash == y.contractHash
          && x.launchURL == y.launchURL && x.validationURL == y.validationURL && x.signedOutURL == y.signedOutURL
          && x.releaseRevision == y.releaseRevision)
  }

  /** Two hashes are equal exactly when the contracts are: every target column but the
      identifier, and the witness columns. */
  lemma ContractHashPinsContract(env: Env, a: ManagedApp, v: Option<ManagedApp>, b: ManagedApp, w: Option<ManagedApp>)
    requires CollisionFree(env)
    requires Storable(a) && Storable(b)
    requires v.Some? ==> Storable(v.value)
    requires w.Some? ==> Storable(w.value)
    ensures ContractHash(env, a, v) == ContractHash(env, b, w) <==> a == b.(id := a.id) && SameWitnessColumns(v, w)
  {
    var x, y := ContractFields(a, v), ContractFields(b, w);
    ContractFieldsAreNulFree(a, v);
    ContractFieldsAreNulFree(b, w);
    assert x[..11] == AppFields(a) && y[..11] == AppFields(b);
    assert x[11..] == if v.Some? then WitnessFields(v.value) else [];
    assert y[11..] == if w.Some? then WitnessFields(w.value) else [];
    if ContractHash(env, a, v) == ContractHash(env, b, w) {
      JoinIsInjective(x, y);
      SameAppFields(a, b);
      if v.Some? {
        SameWitnessFields(v.value, w.value);
      }
    }
  }

  lemma SameAppFields(a: ManagedApp, b: ManagedApp)
    requires AppFields(a) == AppFields(b)
    ensures a == b.(id := a.id)
  {
    var f, g := AppFields(a), AppFields(b);
    assert f[0] == g[0] && f[1] == g[1] && f[2] == g[2] && f[3] == g[3] && f[4] == g[4] && f[5] == g[5]
        && f[6] == g[6] && f[7] == g[7] && f[8] == g[8] && f[9] == g[9] && f[10] == g[10];
  }

  lemma SameWitnessFields(a: ManagedApp, b: ManagedApp)
    requires WitnessFields(a) == WitnessFields(b)
    ensures SameWitnessColumns(Some(a), Some(b))
  {
    var f, g := WitnessFields(a), WitnessFields(b);
    assert f[0] == g[0] && f[1] == g[1] && f[2] == g[2] && f[3] == g[3] && f[4] == g[4] && f[5] == g[5]
        && f[6] == g[6] && f[7] == g[7] && f[8] == g[8];
  }

  lemma ContractFieldsAreNulFree(app: ManagedApp, peer: Option<ManagedApp>)
    requires Storable(app) && (peer.Some? ==> Storable(peer.value))
    ensures AllNulFree(ContractFields(app, peer))
  {
    if peer.Some? {
      var w := peer.value;
      var f := AppFields(w);
      assert f[0] == w.slug && f[1] == w.name && f[4] == w.clientID && f[5] == w.contractHash
          && f[3] == w.launchURL && f[8] == w.validationURL && f[9] == w.signedOutURL && f[10] == w.releaseRevision;
    }
  }

  // ---------------------------------------------------------------- catalog order

  ghost predicate SlugOrdered(apps: seq<ManagedApp>) {
    forall i, j :: 0 <= i < j < |apps| ==> TextLess(apps[i].slug, apps[j].slug)
  }

  ghost predicate UniqueIds(apps: seq<ManagedApp>) {
    forall i, j :: 0 <= i < j < |apps| ==> apps[i].id != apps[j].id
  }

  ghost predicate UniqueClients(apps: seq<ManagedApp>) {
    forall i, j :: 0 <= i < j < |apps| ==> apps[i].clientID != apps[j].clientID
  }

  /** Where ORDER BY slug puts a new row: before the first row with a greater slug. */
  function InsertPosition(apps: seq<ManagedApp>, slug: string): (k: nat)
    ensures k <= |apps|
    ensures forall i :: 0 <= i < k ==> !TextLess(slug, apps[i].slug)
    ensures k < |apps| ==> TextLess(slug, apps[k].slug)
  {
    if apps == [] || TextLess(slug, apps[0].slug) then 0
    else
      assert forall i :: 1 <= i < |apps| ==> apps[i] == apps[1..][i - 1];
      1 + InsertPosition(apps[1..], slug)
  }

  function InsertBySlug(apps: seq<ManagedApp>, app: ManagedApp): seq<ManagedApp> {
    var k := InsertPosition(apps, app.slug);
    apps[..k] + [app] + apps[k..]
  }

  /** Inserting a row with a new slug keeps slug order. */
  lemma InsertKeepsSlugOrder(apps: seq<ManagedApp>, app: ManagedApp)
    requires SlugOrdered(apps)
    requires forall i :: 0 <= i < |apps| ==> apps[i].slug != app.slug
    ensures SlugOrdered(InsertBySlug(apps, app))
  {
    var k := InsertPosition(apps, app.slug);
    forall i | 0 <= i < k ensures TextLess(apps[i].slug, app.slug) {
      TextOrderIsTotal(apps[i].slug, app.slug);
    }
    forall j | k <= j < |apps| ensures TextLess(app.slug, apps[j].slug) {
      if j > k { TextOrderIsTransitive(app.slug, apps[k].slug, apps[j].slug); }
    }
  }

  // ---------------------------------------------------------------- witness ring

  /** An application that can stand beside the target: another row, another
      client, another origin. */
  predicate Eligible(env: Env, target: ManagedApp, candidate: ManagedApp) {
    && candidate.id != target.id
    && candidate.clientID != target.clientID
    && !SameOrigin(env, target.launchURL, candidate.launchURL)
  }

  /** The first position holding an id, or -1. */
  function IndexOf(apps: seq<ManagedApp>, id: Uuid): (index: int)
    ensures -1 <= index < |apps|
    ensures index == -1 <==> forall i :: 0 <= i < |apps| ==> apps[i].id != id
    ensures index >= 0 ==> apps[index].id == id && forall i :: 0 <= i < index ==> apps[i].id != id
  {
    if apps == [] then -1
    else if apps[0].id == id then 0
    else
      var rest := IndexOf(apps[1..], id);
      assert forall i :: 1 <= i < |apps| ==> apps[i] == apps[1..][i - 1];
      if rest < 0 then -1 else rest + 1
  }

  /** The place `offset` steps after `start` on a ring of n places. */
  function RingIndex(n: nat, start: int, offset: nat): (index: nat)
    requires -1 <= start < n && 1 <= offset < n
    ensures index < n
  {
    if start + offset < n then start + offset else start + offset - n
  }

  lemma SmallRemainder(k: nat, n: nat)
    requires k < n
    ensures k % n == k
  {
  }

  lemma RemainderOnce(k: nat, n: nat)
    requires k < n
    ensures (k + n) % n == k
  {
    assert (k + n) / n == 1;
  }

  /** It is the remainder the code takes. */
  lemma RingIndexIsRemainder(n: nat, start: int, offset: nat)
    requires -1 <= start < n && 1 <= offset < n
    ensures RingIndex(n, start, offset) == (start + offset) % n
  {
    var k := start + offset;
    if k >= n {
      RemainderOnce(k - n, n);
    } else {
      SmallRemainder(k, n);
    }
  }

  function RingAt(apps: seq<ManagedApp>, start: int, offset: nat): ManagedApp
    requires -1 <= start < |apps| && 1 <= offset < |apps|
  {
    apps[RingIndex(|apps|, start, offset)]
  }

  /** The first eligible application at a ring offset of at least `offset`. */
  function RingFrom(env: Env, target: ManagedApp, apps: seq<ManagedApp>, start: int, offset: nat): Option<ManagedApp>
    requires -1 <= start < |apps| || apps == []
    requires offset >= 1
    decreases |apps| - offset
  {
    if offset >= |apps| then None
    else
      var candidate := RingAt(apps, start, offset);
      if Eligible(env, target, candidate) then Some(candidate)
      else RingFrom(env, target, apps, start, offset + 1)
  }

  function ValidationWitness(env: Env, target: ManagedApp, apps: seq<ManagedApp>): Option<ManagedApp> {
    RingFrom(env, target, apps, IndexOf(apps, target.id), 1)
  }

  /** The ring search as the code runs it: locate the target, then walk the offsets. */
  method FindValidationWitness(env: Env, target: ManagedApp, apps: seq<ManagedApp>) returns (peer: Option<ManagedApp>)
    ensures peer == ValidationWitness(env, target, apps)
  {
    var targetIndex := -1;
    var index := 0;
    while index < |apps|
      invariant 0 <= index <= |apps|
      invariant targetIndex == -1
      invariant forall i :: 0 <= i < index ==> apps[i].id != target.id
    {
      if apps[index].id == target.id {
        targetIndex := index;
        break;
      }
      index := index + 1;
    }
    assert targetIndex == IndexOf(apps, target.id);
    var offset := 1;
    while offset < |apps|
      invariant 1 <= offset
      invariant RingFrom(env, target, apps, targetIndex, 1) == RingFrom(env, target, apps, targetIndex, offset)
    {
      RingIndexIsRemainder(|apps|, targetIndex, offset);
      var candidate := apps[(targetIndex + offset) % |apps|];
      if Eligible(env, target, candidate) {
        return Some(candidate);
      }
      offset := offset + 1;
    }
    return None;
  }

  /** The offset at which the ring that starts after `start` reaches `index`. */
  function RingOffset(n: nat, start: nat, index: nat): (offset: nat)
    requires start < n && index < n
  {
    if index >= start then index - start else index + n - start
  }

  /** The ring of n places visits every place but its start, each at exactly one offset. */
  lemma {:induction false} RingVisitsEveryOtherPlaceOnce(n: nat, start: nat, index: nat, offset: nat)
    requires start < n && index < n && index != start
    requires 1 <= offset < n
    ensures 1 <= RingOffset(n, start, index) < n
    ensures (start + offset) % n == index <==> offset == RingOffset(n, start, index)
    ensures (start + offset) % n != start
  {
    RingIndexIsRemainder(n, start, offset);
  }

  lemma {:induction false} RingFromIsFirst(env: Env, target: ManagedApp, apps: seq<ManagedApp>, start: int, offset: nat)
    requires -1 <= start < |apps| && offset >= 1
    ensures var w := RingFrom(env, target, apps, start, offset);
      if w.None? then
        forall o :: offset <= o < |apps| ==> !Eligible(env, target, RingAt(apps, start, o))
      else
        exists o :: FirstAt(env, target, apps, start, offset, o) && w.value == RingAt(apps, start, o)
    decreases |apps| - offset
  {
    if offset < |apps| {
      if Eligible(env, target, RingAt(apps, start, offset)) {
        assert FirstAt(env, target, apps, start, offset, offset);
      } else {
        RingFromIsFirst(env, target, apps, start, offset + 1);
        if RingFrom(env, target, apps, start, offset + 1).Some? {
          var o :| FirstAt(env, target, apps, start, offset + 1, o)
            && RingFrom(env, target, apps, start, offset + 1).value == RingAt(apps, start, o);
          assert FirstAt(env, target, apps, start, offset, o);
        }
      }
    }
  }

  ghost predicate FirstAt(env: Env, target: ManagedApp, apps: seq<ManagedApp>, start: int, from: nat, o: nat)
    requires -1 <= start < |apps| && from >= 1
  {
    && from <= o < |apps|
    && Eligible(env, target, RingAt(apps, start, o))
    && forall p :: from <= p < o ==> !Eligible(env, target, RingAt(apps, start, p))
  }

  /** Seen from a cataloged target, every other row sits at its own ring offset. */
  lemma EveryOtherRowIsOnTheRing(apps: seq<ManagedApp>, i: nat, k: nat)
    requires i < |apps| && k < |apps| && k != i
    ensures 1 <= RingOffset(|apps|, i, k) < |apps|
    ensures RingAt(apps, i, RingOffset(|apps|, i, k)) == apps[k]
  {
  }

  /** Row k is the eligible application nearest after row i. */
  ghost predicate NearestEligible(env: Env, apps: seq<ManagedApp>, i: nat, k: nat)
    requires i < |apps|
  {
    && k < |apps| && k != i && Eligible(env, apps[i], apps[k])
    && forall j: nat :: j < |apps| && j != i && Eligible(env, apps[i], apps[j])
         ==> RingOffset(|apps|, i, k) <= RingOffset(|apps|, i, j)
  }

  /** For a cataloged target the ring answers none exactly when no application in
      the catalog is eligible, and otherwise answers the eligible one that comes
      first after the target. */
  lemma WitnessIsNearestEligible(env: Env, apps: seq<ManagedApp>, i: nat)
    requires i < |apps| && UniqueIds(apps)
    ensures ValidationWitness(env, apps[i], apps).None?
      <==> forall k :: 0 <= k < |apps| ==> !Eligible(env, apps[i], apps[k])
    ensures ValidationWitness(env, apps[i], apps).Some?
      ==> exists k: nat :: NearestEligible(env, apps, i, k) && ValidationWitness(env, apps[i], apps).value == apps[k]
    ensures ValidationWitness(env, apps[i], apps).None? <==> forall k :: 0 <= k < |apps| ==>
      apps[k].id == apps[i].id || apps[k].clientID == apps[i].clientID
      || (env.origin(apps[i].launchURL).Some? && env.origin(apps[i].launchURL) == env.origin(apps[k].launchURL))
    ensures var w := ValidationWitness(env, apps[i], apps);
      w.None? || (w.value.id != apps[i].id && w.value.clientID != apps[i].clientID
        && (env.origin(apps[i].launchURL).None? || env.origin(apps[i].launchURL) != env.origin(w.value.launchURL)))
  {
    var n, target := |apps|, apps[i];
    assert IndexOf(apps, target.id) == i;
    RingFromIsFirst(env, target, apps, i, 1);
    var w := ValidationWitness(env, target, apps);
    if w.None? {
      forall k | 0 <= k < n ensures !Eligible(env, target, apps[k]) {
        if k != i { EveryOtherRowIsOnTheRing(apps, i, k); }
      }
    } else {
      var o :| FirstAt(env, target, apps, i, 1, o) && w.value == RingAt(apps, i, o);
      var k := RingIndex(n, i, o);
      forall j: nat | j < n && j != i && Eligible(env, target, apps[j])
        ensures RingOffset(n, i, k) <= RingOffset(n, i, j)
      {
        EveryOtherRowIsOnTheRing(apps, i, j);
      }
      assert NearestEligible(env, apps, i, k);
    }
  }

  // ---------------------------------------------------------------- rings with rows missing

  /** Walking up from slug t and around, a comes before b. */
  predicate ComesFirst(t: string, a: string, b: string) {
    if TextLess(t, a) then TextLess(t, b) ==> TextLess(a, b)
    else TextLess(b, t) && TextLess(a, b)
  }

  lemma OnlyOneComesFirst(t: string, a: string, b: string)
    requires a != b && a != t && b != t && ComesFirst(t, a, b)
    ensures !ComesFirst(t, b, a)
  {
    TextOrderIsTotal(a, b);
    TextOrderIsTotal(t, a);
    TextOrderIsTotal(t, b);
  }

  /** A smaller ring offset is an earlier slug. */
  lemma NearerComesFirst(apps: seq<ManagedApp>, i: nat, k: nat, j: nat)
    requires SlugOrdered(apps) && i < |apps| && k < |apps| && j < |apps| && k != i && j != i
    requires RingOffset(|apps|, i, k) < RingOffset(|apps|, i, j)
    ensures ComesFirst(apps[i].slug, apps[k].slug, apps[j].slug)
  {
    TextOrderIsTotal(apps[i].slug, apps[k].slug);
    TextOrderIsTotal(apps[i].slug, apps[j].slug);
  }

  /** The witness is eligible and comes before every other eligible row. */
  ghost predicate FirstEligible(env: Env, apps: seq<ManagedApp>, target: ManagedApp, w: ManagedApp) {
    && w in apps && Eligible(env, target, w)
    && forall b :: b in apps && b != w && Eligible(env, target, b) ==> ComesFirst(target.slug, w.slug, b.slug)
  }

  lemma WitnessIsFirstEligible(env: Env, apps: seq<ManagedApp>, target: ManagedApp)
    requires SlugOrdered(apps) && UniqueIds(apps) && target in apps
    ensures var w := ValidationWitness(env, target, apps);
      if w.None? then forall b :: b in apps ==> !Eligible(env, target, b) else FirstEligible(env, apps, target, w.value)
  {
    var i: nat :| i < |apps| && apps[i] == target;
    WitnessIsNearestEligible(env, apps, i);
    var w := ValidationWitness(env, target, apps);
    if w.Some? {
      var k: nat :| NearestEligible(env, apps, i, k) && w.value == apps[k];
      forall b | b in apps && b != w.value && Eligible(env, target, b)
        ensures ComesFirst(target.slug, w.value.slug, b.slug)
      {
        var j: nat :| j < |apps| && apps[j] == b;
        assert j != i && j != k;
        NearerComesFirst(apps, i, k, j);
      }
    }
  }

  /** A ring with rows missing picks the same witness if and only if the witness of the whole
      ring is not one of the missing rows. */
  lemma SameWitnessIffNotMissing(env: Env, whole: seq<ManagedApp>, part: seq<ManagedApp>, target: ManagedApp)
    requires SlugOrdered(whole) && UniqueIds(whole) && SlugOrdered(part) && UniqueIds(part)
    requires target in part && forall b :: b in part ==> b in whole
    ensures var w := ValidationWitness(env, target, whole);
      ValidationWitness(env, target, part) == w <==> (w.Some? ==> w.value in part)
  {
    WitnessIsFirstEligible(env, whole, target);
    WitnessIsFirstEligible(env, part, target);
    var w, v := ValidationWitness(env, target, whole), ValidationWitness(env, target, part);
    if w.Some? && w.value in part && v.value != w.value {
      SlugsTellRowsApart(whole, v.value, w.value);
      SlugsTellRowsApart(whole, v.value, target);
      SlugsTellRowsApart(whole, w.value, target);
      OnlyOneComesFirst(target.slug, w.value.slug, v.value.slug);
    }
  }

  lemma SlugsTellRowsApart(apps: seq<ManagedApp>, a: ManagedApp, b: ManagedApp)
    requires SlugOrdered(apps) && a in apps && b in apps && a != b
    ensures a.slug != b.slug
  {
    var i: nat :| i < |apps| && apps[i] == a;
    var j: nat :| j < |apps| && apps[j] == b;
    TextOrderIsTotal(a.slug, b.slug);
  }

  lemma IdsTellRowsApart(apps: seq<ManagedApp>, a: ManagedApp, b: ManagedApp)
    requires UniqueIds(apps) && a in apps && b in apps && a != b
    ensures a.id != b.id
  {
  }
}
