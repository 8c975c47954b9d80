/** Creations that overlap. */
module ValidationCreations {
  import opened Common
  import opened Catalog
  import opened ValidationQueue
  import opened ValidationExclusion
  import opened ValidationAgreement
  import opened ValidationOverlap

  // What they leave of the queue, exactly, and a pair that leaves it behind the catalog.

  /** A creation that requeues from the rows it could see: its own and those committed
      before its catalog load. */
  ghost function CreateSeeing(env: Env, s: State, seen: seq<ManagedApp>, app: ManagedApp, ids: seq<(Uuid, Uuid)>, now: Time): State
    requires |ids| == |InsertBySlug(seen, app)|
  {
    RequeueSeeing(env, s.(catalog := InsertBySlug(s.catalog, app)), InsertBySlug(seen, app), EVERY_APP, ids, now)
  }

  lemma InsertedRows(apps: seq<ManagedApp>, app: ManagedApp, r: ManagedApp)
    ensures r in InsertBySlug(apps, app) <==> r in apps || r == app
  {
    var k := InsertPosition(apps, app.slug);
    assert apps == apps[..k] + apps[k..];
  }

  /** The row can be inserted. */
  ghost predicate Insertable(apps: seq<ManagedApp>, app: ManagedApp) {
    SlugIndex(apps, app.slug) < 0 && !ClientTaken(apps, app.clientID) && IndexOf(apps, app.id) < 0
  }

  lemma InsertingKeepsSeesSome(apps: seq<ManagedApp>, seen: seq<ManagedApp>, app: ManagedApp)
    requires SeesSome(apps, seen) && Insertable(apps, app)
    ensures SeesSome(InsertBySlug(apps, app), InsertBySlug(seen, app))
  {
    InsertingKeepsCatalogOk(apps, app);
    assert forall i :: 0 <= i < |seen| ==> seen[i] in apps;
    assert Insertable(seen, app);
    InsertingKeepsCatalogOk(seen, app);
    forall r | r in InsertBySlug(seen, app)
      ensures r in InsertBySlug(apps, app)
    {
      InsertedRows(seen, app, r);
      InsertedRows(apps, app, r);
    }
  }

  /** Exactly when a creation that missed rows agrees: neither the new application nor any it
      saw has its witness among the rows it missed, and the missed rows are already queued for
      the catalog with the new row in it. */
  lemma CreationAgreesIff(env: Env, s: State, seen: seq<ManagedApp>, app: ManagedApp, ids: seq<(Uuid, Uuid)>, now: Time)
    requires CollisionFree(env) && AllStorable(s.catalog) && Storable(app)
    requires Inv(s) && SeesSome(s.catalog, seen) && Insertable(s.catalog, app) && FreshIds(s.runs, InsertBySlug(seen, app), ids)
    ensures var whole, part := InsertBySlug(s.catalog, app), InsertBySlug(seen, app);
      Agrees(env, CreateSeeing(env, s, seen, app, ids, now)) <==>
        && (forall r :: r in part ==> WitnessSeen(env, whole, part, r))
        && (forall r :: r in whole && r !in part ==> QueueCarries(s.runs, r.id, CurrentHash(env, whole, r)))
  {
    var whole, part := InsertBySlug(s.catalog, app), InsertBySlug(seen, app);
    var t := s.(catalog := whole);
    InsertingKeepsSeesSome(s.catalog, seen, app);
    SeeingAgreesIff(env, t, part, EVERY_APP, ids, now);
    WellSeenByAll(env, t, part);
  }

  lemma WellSeenByAll(env: Env, s: State, seen: seq<ManagedApp>)
    requires forall r :: r in seen ==> r in s.catalog
    ensures AllWellSeen(env, s, seen, EVERY_APP) <==>
      && (forall r :: r in seen ==> WitnessSeen(env, s.catalog, seen, r))
      && (forall r :: r in s.catalog && r !in seen ==> QueueCarries(s.runs, r.id, CurrentHash(env, s.catalog, r)))
  {
  }

  /** A creation that saw the whole catalog is the atomic one, so it agrees whatever the digest. */
  lemma {:induction false} CreationSeeingAllAgrees(env: Env, s: State, app: ManagedApp, ids: seq<(Uuid, Uuid)>, now: Time)
    requires Inv(s) && CatalogOk(s.catalog) && FreshIds(s.runs, InsertBySlug(s.catalog, app), ids) && Insertable(s.catalog, app)
    ensures CreateSeeing(env, s, s.catalog, app, ids, now) == ChangeCatalog(env, s, CreateApp(app), false, ids, now)
    ensures Agrees(env, CreateSeeing(env, s, s.catalog, app, ids, now))
  {
    RequeuingChangeAgrees(env, s, CreateApp(app), false, ids, now);
  }

  /** Enqueueing a lone application into tables without a row of its own adds its two checks. */
  lemma LoneAppQueuesTwoChecks(env: Env, runs: map<Uuid, Run>, app: ManagedApp, ids: (Uuid, Uuid), now: Time)
    requires ids.0 !in runs && ids.1 !in runs && ids.0 != ids.1
    requires forall id :: id in runs ==> runs[id].target.appId != app.id
    ensures EnqueueFirst(env, runs, [app], EVERY_APP, 1, [ids], now)
         == runs[ids.0 := NewRun(env, ids.0, app, None, FromShauth, now)][ids.1 := NewRun(env, ids.1, app, None, FromApp, now)]
  {
  }

  lemma OverlappingCreationsQueueWithoutWitness(env: Env, a: ManagedApp, b: ManagedApp, i: (Uuid, Uuid), j: (Uuid, Uuid), now: Time)
    requires a.id != b.id && TextLess(a.slug, b.slug)
    requires i.0 != i.1 && j.0 != j.1 && i.0 != j.0 && i.0 != j.1 && i.1 != j.0 && i.1 != j.1
    ensures var t := CreateSeeing(env, CreateSeeing(env, EMPTY, [], a, [i], now), [], b, [j], now);
      t.catalog == [a, b] && i.0 in t.runs && t.runs[i.0] == NewRun(env, i.0, a, None, FromShauth, now)
  {
    assert InsertBySlug([], a) == [a] && InsertBySlug([], b) == [b];
    LoneAppQueuesTwoChecks(env, map[], a, i, now);
    var first := CreateSeeing(env, EMPTY, [], a, [i], now);
    LoneAppQueuesTwoChecks(env, first.runs, b, j, now);
    TextOrderIsTotal(a.slug, b.slug);
  }

  /** Two overlapping creations that miss each other's row leave the queue behind the
      catalog: the first application is queued without the witness it now has. */
  lemma OverlappingCreationsDisagree(env: Env, a: ManagedApp, b: ManagedApp, i: (Uuid, Uuid), j: (Uuid, Uuid), now: Time)
    requires CollisionFree(env) && Storable(a) && Storable(b)
    requires a.id != b.id && TextLess(a.slug, b.slug) && Eligible(env, a, b)
    requires i.0 != i.1 && j.0 != j.1 && i.0 != j.0 && i.0 != j.1 && i.1 != j.0 && i.1 != j.1
    ensures !Agrees(env, CreateSeeing(env, CreateSeeing(env, EMPTY, [], a, [i], now), [], b, [j], now))
  {
    OverlappingCreationsQueueWithoutWitness(env, a, b, i, j, now);
    assert ValidationWitness(env, a, [a, b]) == Some(b) by { assert RingAt([a, b], 0, 1) == b; }
    if ContractHash(env, a, None) == ContractHash(env, a, Some(b)) {
      ContractHashPinsContract(env, a, None, a, Some(b));
    }
    var t := CreateSeeing(env, CreateSeeing(env, EMPTY, [], a, [i], now), [], b, [j], now);
    assert !QueueCarries(t.runs, t.catalog[0].id, CurrentHash(env, t.catalog, t.catalog[0]));
  }
}
