/** Requeues that missed catalog rows. */
module ValidationOverlap {
  import opened Common
  import opened Catalog
  import opened ValidationQueue
  import opened ValidationExclusion
  import opened ValidationAgreement

  // A catalog load sees the rows committed when its statement began; this is exactly when one
  // that missed rows still leaves the queue in agreement.

  /** Requeue the selected of the rows a load saw. */
  ghost function RequeueSeeing(env: Env, s: State, seen: seq<ManagedApp>, ref: ManagedAppRef, ids: seq<(Uuid, Uuid)>, now: Time): State
    requires |ids| == |seen|
  {
    s.(runs := EnqueueFirst(env, s.runs, seen, ref, |seen|, ids, now))
  }

  /** The load saw some of the committed rows, as they are. */
  ghost predicate SeesSome(apps: seq<ManagedApp>, seen: seq<ManagedApp>) {
    CatalogOk(apps) && CatalogOk(seen) && forall r :: r in seen ==> r in apps
  }

  // ---------------------------------------------------------------- one row

  /** The rows an application's checks are in. */
  ghost predicate SameChecks(before: map<Uuid, Run>, after: map<Uuid, Run>, appId: Uuid) {
    && (forall id :: id in before && before[id].target.appId == appId ==> id in after && after[id] == before[id])
    && (forall id :: id in after && after[id].target.appId == appId ==> id in before && after[id] == before[id])
  }

  lemma {:induction false} UnselectedKeepChecks(env: Env, runs: map<Uuid, Run>, apps: seq<ManagedApp>, ref: ManagedAppRef,
                                                n: nat, ids: seq<(Uuid, Uuid)>, now: Time, appId: Uuid)
    requires RunsInv(runs) && FreshIds(runs, apps, ids) && n <= |apps|
    requires forall i :: 0 <= i < |apps| && ref.Selects(apps[i]) ==> apps[i].id != appId
    ensures SameChecks(runs, EnqueueFirst(env, runs, apps, ref, n, ids, now), appId)
  {
    if n > 0 {
      UnselectedKeepChecks(env, runs, apps, ref, n - 1, ids, now, appId);
      UnselectedNext(env, runs, apps, ref, n, ids, now, appId);
    }
  }

  lemma UnselectedNext(env: Env, runs: map<Uuid, Run>, apps: seq<ManagedApp>, ref: ManagedAppRef, n: nat, ids: seq<(Uuid, Uuid)>, now: Time, appId: Uuid)
    requires RunsInv(runs) && FreshIds(runs, apps, ids) && 0 < n <= |apps|
    requires ref.Selects(apps[n - 1]) ==> apps[n - 1].id != appId
    requires SameChecks(runs, EnqueueFirst(env, runs, apps, ref, n - 1, ids, now), appId)
    ensures SameChecks(runs, EnqueueFirst(env, runs, apps, ref, n, ids, now), appId)
  {
    if ref.Selects(apps[n - 1]) {
      EnqueueEffectAt(env, runs, apps, ref, n, ids, now);
    }
  }

  /** No application has both directions running, so one of two pending checks is queued. */
  lemma OneDirectionIsQueued(s: State, appId: Uuid, hash: string) returns (id: Uuid)
    requires Inv(s) && BothPending(s.runs, appId, hash)
    ensures id in s.runs && s.runs[id].status == Queued && s.runs[id].target.appId == appId && s.runs[id].hash == hash
  {
    var a :| a in PendingFor(s.runs, appId, FromShauth, hash);
    var b :| b in PendingFor(s.runs, appId, FromApp, hash);
    assert a != b && appId in AppsOf(s.runs[a]) * AppsOf(s.runs[b]);
    assert ShareApp(s.runs[a], s.runs[b]);
    id := if s.runs[a].status == Queued then a else b;
  }

  lemma CarriesIffSameHash(s: State, appId: Uuid, hash: string, wanted: string)
    requires Inv(s) && QueueCarries(s.runs, appId, hash) && BothPending(s.runs, appId, hash)
    ensures QueueCarries(s.runs, appId, wanted) <==> hash == wanted
  {
    var id := OneDirectionIsQueued(s, appId, hash);
  }

  /** A requeued row carries the hash of the whole catalog exactly when the rows seen give the
      same hash; a row not requeued carries it exactly when it did before. */
  lemma RowAgreesIff(env: Env, s: State, seen: seq<ManagedApp>, ref: ManagedAppRef, ids: seq<(Uuid, Uuid)>, now: Time, r: ManagedApp, wanted: string)
    requires Inv(s) && SeesSome(s.catalog, seen) && FreshIds(s.runs, seen, ids) && r in s.catalog
    ensures QueueCarries(RequeueSeeing(env, s, seen, ref, ids, now).runs, r.id, wanted)
      <==> if r in seen && ref.Selects(r) then CurrentHash(env, seen, r) == wanted else QueueCarries(s.runs, r.id, wanted)
  {
    var after := RequeueSeeing(env, s, seen, ref, ids, now);
    if r in seen && ref.Selects(r) {
      var i: nat :| i < |seen| && seen[i] == r;
      EnqueueReachesEachSelected(env, s.runs, seen, ref, |seen|, ids, now, i);
      SeeingKeepsInv(env, s, seen, ref, ids, now);
      CarriesIffSameHash(after, r.id, CurrentHash(env, seen, r), wanted);
    } else {
      forall i | 0 <= i < |seen| && ref.Selects(seen[i])
        ensures seen[i].id != r.id
      {
        IdsTellRowsApart(s.catalog, seen[i], r);
      }
      UnselectedKeepChecks(env, s.runs, seen, ref, |seen|, ids, now, r.id);
    }
  }

  lemma SeeingKeepsInv(env: Env, s: State, seen: seq<ManagedApp>, ref: ManagedAppRef, ids: seq<(Uuid, Uuid)>, now: Time)
    requires Inv(s) && FreshIds(s.runs, seen, ids)
    ensures Inv(RequeueSeeing(env, s, seen, ref, ids, now))
  {
    EnqueueKeepsRunsInv(env, s.runs, seen, ref, |seen|, ids, now);
    QueueChangesKeepInv(s, EnqueueFirst(env, s.runs, seen, ref, |seen|, ids, now));
  }

  // ---------------------------------------------------------------- the whole catalog

  /** The row's witness is not among the rows missed. */
  predicate WitnessSeen(env: Env, whole: seq<ManagedApp>, seen: seq<ManagedApp>, r: ManagedApp) {
    var w := ValidationWitness(env, r, whole);
    w.Some? ==> w.value in seen
  }

  /** What must hold of one row for the requeue to leave it in agreement: a requeued row's
      witness is not among the rows missed, and any other row was queued as it must be. */
  ghost predicate WellSeen(env: Env, s: State, seen: seq<ManagedApp>, ref: ManagedAppRef, r: ManagedApp) {
    if r in seen && ref.Selects(r) then WitnessSeen(env, s.catalog, seen, r)
    else QueueCarries(s.runs, r.id, CurrentHash(env, s.catalog, r))
  }

  ghost predicate AllWellSeen(env: Env, s: State, seen: seq<ManagedApp>, ref: ManagedAppRef) {
    forall r :: r in s.catalog ==> WellSeen(env, s, seen, ref, r)
  }

  /** With a collision-free digest, the same hash means the same witness. */
  lemma SameHashIffWitnessSeen(env: Env, whole: seq<ManagedApp>, seen: seq<ManagedApp>, r: ManagedApp)
    requires CollisionFree(env) && AllStorable(whole) && SeesSome(whole, seen) && r in seen
    ensures CurrentHash(env, seen, r) == CurrentHash(env, whole, r) <==> WitnessSeen(env, whole, seen, r)
  {
    var v, w := ValidationWitness(env, r, seen), ValidationWitness(env, r, whole);
    SameWitnessIffNotMissing(env, whole, seen, r);
    WitnessIsFirstEligible(env, whole, r);
    WitnessIsFirstEligible(env, seen, r);
    if ContractHash(env, r, v) == ContractHash(env, r, w) {
      ContractHashPinsContract(env, r, v, r, w);
      if v.Some? {
        assert v == w by {
          if v != w {
            IdsTellRowsApart(whole, v.value, w.value);
          }
        }
      }
    }
  }

  /** Exactly when a requeue that may have missed rows leaves queue and catalog in agreement:
      no requeued row has its witness among the rows missed, and every row not requeued was
      already queued for the present catalog. */
  lemma SeeingAgreesIff(env: Env, s: State, seen: seq<ManagedApp>, ref: ManagedAppRef, ids: seq<(Uuid, Uuid)>, now: Time)
    requires CollisionFree(env) && AllStorable(s.catalog)
    requires Inv(s) && SeesSome(s.catalog, seen) && FreshIds(s.runs, seen, ids)
    ensures Agrees(env, RequeueSeeing(env, s, seen, ref, ids, now)) <==> AllWellSeen(env, s, seen, ref)
  {
    var after := RequeueSeeing(env, s, seen, ref, ids, now);
    forall r | r in s.catalog
      ensures QueueCarries(after.runs, r.id, CurrentHash(env, s.catalog, r)) <==> WellSeen(env, s, seen, ref, r)
    {
      RowAgreesIff(env, s, seen, ref, ids, now, r, CurrentHash(env, s.catalog, r));
      if r in seen && ref.Selects(r) {
        SameHashIffWitnessSeen(env, s.catalog, seen, r);
      }
    }
  }

}
