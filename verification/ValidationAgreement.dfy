/** The queue describes the catalog. */
module ValidationAgreement {
  import opened Common
  import opened Catalog
  import opened ValidationQueue
  import opened ValidationExclusion

  // After every transaction, each queued check of a cataloged application is the check its
  // current registration calls for.

  ghost predicate CatalogOk(apps: seq<ManagedApp>) {
    SlugOrdered(apps) && UniqueIds(apps) && UniqueClients(apps)
  }

  /** The hash a check of this application must carry now. */
  function CurrentHash(env: Env, apps: seq<ManagedApp>, app: ManagedApp): string {
    ContractHash(env, app, ValidationWitness(env, app, apps))
  }

  /** Every queued check of the application carries the hash. */
  ghost predicate QueueCarries(runs: map<Uuid, Run>, appId: Uuid, hash: string) {
    forall id :: id in runs && runs[id].status == Queued && runs[id].target.appId == appId ==> runs[id].hash == hash
  }

  /** Both directions have a check pending under the hash. */
  ghost predicate BothPending(runs: map<Uuid, Run>, appId: Uuid, hash: string) {
    PendingFor(runs, appId, FromShauth, hash) != {} && PendingFor(runs, appId, FromApp, hash) != {}
  }

  ghost predicate Agrees(env: Env, s: State) {
    forall i :: 0 <= i < |s.catalog| ==> QueueCarries(s.runs, s.catalog[i].id, CurrentHash(env, s.catalog, s.catalog[i]))
  }

  ghost predicate Covered(env: Env, s: State) {
    forall i :: 0 <= i < |s.catalog| ==> BothPending(s.runs, s.catalog[i].id, CurrentHash(env, s.catalog, s.catalog[i]))
  }

  // ---------------------------------------------------------------- one application

  /** Rows of other applications are left alone. */
  ghost predicate OthersUntouched(before: map<Uuid, Run>, after: map<Uuid, Run>, appId: Uuid) {
    && (forall id :: id in before && before[id].target.appId != appId ==> id in after && after[id] == before[id])
    && (forall id :: id in after && after[id].target.appId != appId ==> id in before && after[id] == before[id])
  }

  lemma EnqueueDirectionEffect(env: Env, runs: map<Uuid, Run>, app: ManagedApp, peer: Option<ManagedApp>,
                               direction: Direction, id: Uuid, now: Time)
    requires id !in runs
    ensures var after, hash := EnqueueDirection(env, runs, app, peer, direction, id, now), ContractHash(env, app, peer);
      && OthersUntouched(runs, after, app.id)
      && PendingFor(after, app.id, direction, hash) != {}
      && (forall x :: x in after && after[x].status == Queued && after[x].target.appId == app.id && after[x].direction == direction
                      ==> after[x].hash == hash)
      && (forall x :: x in runs && runs[x].direction != direction ==> x in after && after[x] == runs[x])
      && (forall x :: x in after && after[x].direction != direction ==> x in runs && after[x] == runs[x])
  {
    var after, hash := EnqueueDirection(env, runs, app, peer, direction, id, now), ContractHash(env, app, peer);
    if PendingFor(runs - Superseded(runs, app.id, direction, hash), app.id, direction, hash) == {} {
      assert id in PendingFor(after, app.id, direction, hash);
    }
  }

  lemma EnqueueAppEffect(env: Env, runs: map<Uuid, Run>, app: ManagedApp, peer: Option<ManagedApp>, ids: (Uuid, Uuid), now: Time)
    requires ids.0 !in runs && ids.1 !in runs && ids.0 != ids.1
    ensures var after, hash := EnqueueApp(env, runs, app, peer, ids, now), ContractHash(env, app, peer);
      OthersUntouched(runs, after, app.id) && QueueCarries(after, app.id, hash) && BothPending(after, app.id, hash)
  {
    var hash := ContractHash(env, app, peer);
    var middle := EnqueueDirection(env, runs, app, peer, FromShauth, ids.0, now);
    EnqueueDirectionEffect(env, runs, app, peer, FromShauth, ids.0, now);
    EnqueueDirectionEffect(env, middle, app, peer, FromApp, ids.1, now);
    var after := EnqueueApp(env, runs, app, peer, ids, now);
    var x :| x in PendingFor(middle, app.id, FromShauth, hash);
    assert x in PendingFor(after, app.id, FromShauth, hash);
    forall y | y in after && after[y].status == Queued && after[y].target.appId == app.id ensures after[y].hash == hash {
      if after[y].direction == FromShauth { assert y in middle && after[y] == middle[y]; }
    }
  }

  // ---------------------------------------------------------------- the whole catalog

  /** What enqueueing the first n rows did for row i: a selected one of the first n
      agrees and is covered, any other keeps the agreement it had. */
  ghost predicate Reached(env: Env, before: map<Uuid, Run>, after: map<Uuid, Run>, apps: seq<ManagedApp>, ref: ManagedAppRef, n: nat, i: nat)
    requires i < |apps|
  {
    var id, hash := apps[i].id, CurrentHash(env, apps, apps[i]);
    if i < n && ref.Selects(apps[i]) then QueueCarries(after, id, hash) && BothPending(after, id, hash)
    else QueueCarries(before, id, hash) ==> QueueCarries(after, id, hash)
  }

  /** The last of the first n rows, when selected, agrees and is covered; no other application's rows move. */
  lemma EnqueueEffectAt(env: Env, runs: map<Uuid, Run>, apps: seq<ManagedApp>, ref: ManagedAppRef, n: nat, ids: seq<(Uuid, Uuid)>, now: Time)
    requires RunsInv(runs) && FreshIds(runs, apps, ids) && 0 < n <= |apps| && ref.Selects(apps[n - 1])
    ensures var before, after := EnqueueFirst(env, runs, apps, ref, n - 1, ids, now), EnqueueFirst(env, runs, apps, ref, n, ids, now);
      var id, hash := apps[n - 1].id, CurrentHash(env, apps, apps[n - 1]);
      OthersUntouched(before, after, id) && QueueCarries(after, id, hash) && BothPending(after, id, hash)
  {
    var before := EnqueueFirst(env, runs, apps, ref, n - 1, ids, now);
    var app := apps[n - 1];
    EnqueueKeepsRunsInv(env, runs, apps, ref, n - 1, ids, now);
    EnqueueAppEffect(env, before, app, ValidationWitness(env, app, apps), ids[n - 1], now);
  }

  lemma ReachedNext(env: Env, runs: map<Uuid, Run>, before: map<Uuid, Run>, after: map<Uuid, Run>, apps: seq<ManagedApp>, ref: ManagedAppRef, n: nat, i: nat)
    requires UniqueIds(apps) && 0 < n <= |apps| && i < |apps| && Reached(env, runs, before, apps, ref, n - 1, i)
    requires var id, hash := apps[n - 1].id, CurrentHash(env, apps, apps[n - 1]);
      OthersUntouched(before, after, id) && QueueCarries(after, id, hash) && BothPending(after, id, hash)
    ensures Reached(env, runs, after, apps, ref, n, i)
  {
    if i != n - 1 {
      assert apps[i].id != apps[n - 1].id;
    }
  }

  lemma EnqueueReachesNext(env: Env, runs: map<Uuid, Run>, apps: seq<ManagedApp>, ref: ManagedAppRef, n: nat, ids: seq<(Uuid, Uuid)>, now: Time, i: nat)
    requires RunsInv(runs) && UniqueIds(apps) && FreshIds(runs, apps, ids) && 0 < n <= |apps| && i < |apps|
    requires Reached(env, runs, EnqueueFirst(env, runs, apps, ref, n - 1, ids, now), apps, ref, n - 1, i)
    ensures Reached(env, runs, EnqueueFirst(env, runs, apps, ref, n, ids, now), apps, ref, n, i)
  {
    var before := EnqueueFirst(env, runs, apps, ref, n - 1, ids, now);
    if ref.Selects(apps[n - 1]) {
      EnqueueEffectAt(env, runs, apps, ref, n, ids, now);
      ReachedNext(env, runs, before, EnqueueFirst(env, runs, apps, ref, n, ids, now), apps, ref, n, i);
    }
  }

  lemma {:induction false} EnqueueReachesEachSelected(env: Env, runs: map<Uuid, Run>, apps: seq<ManagedApp>, ref: ManagedAppRef,
                                                      n: nat, ids: seq<(Uuid, Uuid)>, now: Time, i: nat)
    requires RunsInv(runs) && UniqueIds(apps) && FreshIds(runs, apps, ids) && n <= |apps| && i < |apps|
    ensures Reached(env, runs, EnqueueFirst(env, runs, apps, ref, n, ids, now), apps, ref, n, i)
    decreases n
  {
    if n > 0 {
      EnqueueReachesEachSelected(env, runs, apps, ref, n - 1, ids, now, i);
      EnqueueReachesNext(env, runs, apps, ref, n, ids, now, i);
    }
  }

  /** Requeueing every application makes queue and catalog agree, whatever was queued
      before, and leaves both directions of every application pending. */
  lemma {:induction false} RequeueAllAgrees(env: Env, s: State, ids: seq<(Uuid, Uuid)>, now: Time)
    requires Inv(s) && UniqueIds(s.catalog) && FreshIds(s.runs, s.catalog, ids)
    ensures Agrees(env, Requeued(env, s, EVERY_APP, ids, now)) && Covered(env, Requeued(env, s, EVERY_APP, ids, now))
  {
    var after := Requeued(env, s, EVERY_APP, ids, now).runs;
    forall i | 0 <= i < |s.catalog|
      ensures QueueCarries(after, s.catalog[i].id, CurrentHash(env, s.catalog, s.catalog[i]))
      ensures BothPending(after, s.catalog[i].id, CurrentHash(env, s.catalog, s.catalog[i]))
    {
      EnqueueReachesEachSelected(env, s.runs, s.catalog, EVERY_APP, |s.catalog|, ids, now, i);
    }
  }

  lemma RequeueKeepsAgreement(env: Env, s: State, ref: ManagedAppRef, ids: seq<(Uuid, Uuid)>, now: Time)
    requires Inv(s) && UniqueIds(s.catalog) && Agrees(env, s)
    ensures Agrees(env, Requeued(env, s, ref, ids, now))
  {
    if FreshIds(s.runs, s.catalog, ids) {
      var after := Requeued(env, s, ref, ids, now).runs;
      forall i | 0 <= i < |s.catalog|
        ensures QueueCarries(after, s.catalog[i].id, CurrentHash(env, s.catalog, s.catalog[i]))
      {
        EnqueueReachesEachSelected(env, s.runs, s.catalog, ref, |s.catalog|, ids, now, i);
      }
    }
  }

  /** An explicit request covers exactly the applications it selects. */
  lemma RequestCoversSelected(env: Env, s: State, ref: ManagedAppRef, ids: seq<(Uuid, Uuid)>, now: Time, app: ManagedApp)
    requires Inv(s) && UniqueIds(s.catalog) && FreshIds(s.runs, s.catalog, ids)
    requires app in s.catalog && ref.Selects(app)
    ensures BothPending(Requeued(env, s, ref, ids, now).runs, app.id, CurrentHash(env, s.catalog, app))
  {
    var i: nat :| i < |s.catalog| && s.catalog[i] == app;
    EnqueueReachesEachSelected(env, s.runs, s.catalog, ref, |s.catalog|, ids, now, i);
  }

  // ---------------------------------------------------------------- catalog changes

  lemma ChangesKeepCatalogOk(apps: seq<ManagedApp>, change: Change)
    requires CatalogOk(apps) && Changed(apps, change).Some?
    ensures CatalogOk(Changed(apps, change).value)
  {
    if change.DeleteApp? {
      RemovingKeepsCatalogOk(apps, SlugIndex(apps, change.slug));
    } else if change.ReconcileContract? {
      var i := IndexOf(apps, change.appId);
    } else if SlugIndex(apps, change.app.slug) < 0 {
      InsertingKeepsCatalogOk(apps, change.app);
    } else {
      var i := SlugIndex(apps, change.app.slug);
    }
  }

  lemma InsertingKeepsCatalogOk(apps: seq<ManagedApp>, app: ManagedApp)
    requires CatalogOk(apps) && SlugIndex(apps, app.slug) < 0 && !ClientTaken(apps, app.clientID) && IndexOf(apps, app.id) < 0
    ensures CatalogOk(InsertBySlug(apps, app))
  {
    InsertKeepsSlugOrder(apps, app);
    assert forall i :: 0 <= i < |apps| ==> apps[i].id != app.id && apps[i].clientID != app.clientID;
    InsertKeepsUnique(apps, app, InsertPosition(apps, app.slug));
  }

  lemma InsertKeepsUnique(apps: seq<ManagedApp>, app: ManagedApp, k: nat)
    requires UniqueIds(apps) && UniqueClients(apps) && k <= |apps|
    requires forall i :: 0 <= i < |apps| ==> apps[i].id != app.id && apps[i].clientID != app.clientID
    ensures UniqueIds(apps[..k] + [app] + apps[k..]) && UniqueClients(apps[..k] + [app] + apps[k..])
  {
  }

  lemma RemovingKeepsCatalogOk(apps: seq<ManagedApp>, i: nat)
    requires CatalogOk(apps) && i < |apps|
    ensures CatalogOk(apps[..i] + apps[i + 1..])
  {
  }

  /** A change that skips the requeue left the catalog as it was. */
  lemma SkippedRequeueMeansSameCatalog(apps: seq<ManagedApp>, change: Change)
    requires Changed(apps, change).Some? && !Requeues(apps, change)
    ensures Changed(apps, change).value == apps
  {
  }

  ghost predicate QueuesNothing(before: map<Uuid, Run>, after: map<Uuid, Run>) {
    forall id :: id in after && after[id].status == Queued ==> id in before && after[id] == before[id]
  }

  /** Steps that leave the catalog alone and queue nothing keep the agreement. */
  lemma ShrinkingQueueKeepsAgreement(env: Env, s: State, t: State)
    requires Agrees(env, s) && t.catalog == s.catalog
    requires QueuesNothing(s.runs, t.runs)
    ensures Agrees(env, t)
  {
  }

  lemma CascadeKeepsAgreement(env: Env, s: State, change: Change, cascade: bool)
    requires Agrees(env, s)
    ensures Agrees(env, AfterCascade(s, change, cascade)) && AfterCascade(s, change, cascade).catalog == s.catalog
  {
    ShrinkingQueueKeepsAgreement(env, s, AfterCascade(s, change, cascade));
  }

  lemma RequeuingChangeAgrees(env: Env, s: State, change: Change, cascade: bool, ids: seq<(Uuid, Uuid)>, now: Time)
    requires Inv(s) && CatalogOk(s.catalog) && Changed(s.catalog, change).Some?
    requires FreshIds(AfterCascade(s, change, cascade).runs, Changed(s.catalog, change).value, ids)
    ensures var changed := AfterCascade(s, change, cascade).(catalog := Changed(s.catalog, change).value);
      var t := Requeued(env, changed, EVERY_APP, ids, now);
      Agrees(env, t) && Covered(env, t) && CatalogOk(t.catalog)
  {
    ChangesKeepCatalogOk(s.catalog, change);
    var changed := AfterCascade(s, change, cascade).(catalog := Changed(s.catalog, change).value);
    assert Inv(changed) by { CascadeKeepsInv(s, change, cascade); }
    RequeueAllAgrees(env, changed, ids, now);
  }

  lemma {:induction false} ChangeKeepsAgreement(env: Env, s: State, change: Change, cascade: bool, ids: seq<(Uuid, Uuid)>, now: Time)
    requires Inv(s) && CatalogOk(s.catalog) && Agrees(env, s)
    ensures var t := ChangeCatalog(env, s, change, cascade, ids, now);
      CatalogOk(t.catalog) && Agrees(env, t)
  {
    var apps := Changed(s.catalog, change);
    if apps.Some? {
      ghost var changed := AfterCascade(s, change, cascade).(catalog := apps.value);
      if !Requeues(s.catalog, change) {
        assert ChangeCatalog(env, s, change, cascade, ids, now) == changed;
        SkippedRequeueMeansSameCatalog(s.catalog, change);
        CascadeKeepsAgreement(env, s, change, cascade);
      } else if FreshIds(changed.runs, apps.value, ids) {
        assert ChangeCatalog(env, s, change, cascade, ids, now) == Requeued(env, changed, EVERY_APP, ids, now);
        RequeuingChangeAgrees(env, s, change, cascade, ids, now);
      }
    }
  }

  /** Immediately after any effective catalog change, every application has both
      directions queued or running under its current contract. */
  lemma EffectiveChangeCoversCatalog(env: Env, s: State, change: Change, cascade: bool, ids: seq<(Uuid, Uuid)>, now: Time)
    requires Inv(s) && CatalogOk(s.catalog)
    requires Changed(s.catalog, change).Some? && Requeues(s.catalog, change)
    requires FreshIds(AfterCascade(s, change, cascade).runs, Changed(s.catalog, change).value, ids)
    ensures Covered(env, ChangeCatalog(env, s, change, cascade, ids, now))
  {
    RequeuingChangeAgrees(env, s, change, cascade, ids, now);
  }

  // ---------------------------------------------------------------- where rows come from

  ghost predicate EnqueuedFrom(env: Env, run: Run, app: ManagedApp, peer: Option<ManagedApp>) {
    && Storable(app) && (peer.Some? ==> Storable(peer.value))
    && run.target == CopyOf(app) && run.peer == CopyOfPeer(peer) && run.hash == ContractHash(env, app, peer)
  }

  /** Some registration was enqueued as this row. */
  ghost predicate Sourced(env: Env, run: Run) {
    exists app, peer :: EnqueuedFrom(env, run, app, peer)
  }

  ghost predicate AllSourced(env: Env, runs: map<Uuid, Run>) {
    forall id :: id in runs ==> Sourced(env, runs[id])
  }

  ghost predicate AllStorable(apps: seq<ManagedApp>) {
    forall i :: 0 <= i < |apps| ==> Storable(apps[i])
  }

  lemma EnqueueDirectionKeepsSourced(env: Env, runs: map<Uuid, Run>, app: ManagedApp, peer: Option<ManagedApp>,
                                     direction: Direction, id: Uuid, now: Time)
    requires AllSourced(env, runs) && Storable(app) && (peer.Some? ==> Storable(peer.value))
    ensures AllSourced(env, EnqueueDirection(env, runs, app, peer, direction, id, now))
  {
    assert EnqueuedFrom(env, NewRun(env, id, app, peer, direction, now), app, peer);
  }

  lemma {:induction false} EnqueueKeepsSourced(env: Env, runs: map<Uuid, Run>, apps: seq<ManagedApp>, ref: ManagedAppRef,
                                               n: nat, ids: seq<(Uuid, Uuid)>, now: Time)
    requires AllSourced(env, runs) && AllStorable(apps) && n <= |apps| == |ids|
    ensures AllSourced(env, EnqueueFirst(env, runs, apps, ref, n, ids, now))
  {
    if n > 0 {
      EnqueueKeepsSourced(env, runs, apps, ref, n - 1, ids, now);
      var before := EnqueueFirst(env, runs, apps, ref, n - 1, ids, now);
      var app := apps[n - 1];
      var peer := ValidationWitness(env, app, apps);
      WitnessIsAnotherApp(env, app, apps, IndexOf(apps, app.id), 1);
      EnqueueDirectionKeepsSourced(env, before, app, peer, FromShauth, ids[n - 1].0, now);
      var middle := EnqueueDirection(env, before, app, peer, FromShauth, ids[n - 1].0, now);
      EnqueueDirectionKeepsSourced(env, middle, app, peer, FromApp, ids[n - 1].1, now);
    }
  }

  lemma FinishingKeepsSourced(env: Env, s: State, ids: set<Uuid>, status: Status, now: Time)
    requires AllSourced(env, s.runs)
    ensures AllSourced(env, FinishAll(s, ids, status, now).runs)
  {
    var t := FinishAll(s, ids, status, now);
    forall id | id in t.runs ensures Sourced(env, t.runs[id]) {
      var app, peer :| EnqueuedFrom(env, s.runs[id], app, peer);
      assert EnqueuedFrom(env, t.runs[id], app, peer);
    }
  }

  lemma LeasingKeepsSourced(env: Env, s: State, run: Uuid, user: Uuid, now: Time)
    requires AllSourced(env, s.runs) && run in s.runs && user in s.pool
    ensures AllSourced(env, Lease(s, run, user, now).runs)
  {
    var app, peer :| EnqueuedFrom(env, s.runs[run], app, peer);
    assert EnqueuedFrom(env, Leased(s.runs[run], now), app, peer);
  }

  /** Registrations a transaction writes hold no NUL. */
  ghost predicate WritesStorable(e: Event) {
    e.Change? ==> match e.change
      case CreateApp(app) => Storable(app)
      case ReconcileBootstrap(app) => Storable(app)
      case ReconcileContract(_, contractHash) => NulFree(contractHash)
      case DeleteApp(_, _) => true
  }

  lemma ChangesKeepStorable(apps: seq<ManagedApp>, change: Change)
    requires AllStorable(apps) && Changed(apps, change).Some?
    requires (change.CreateApp? || change.ReconcileBootstrap?) ==> Storable(change.app)
    requires change.ReconcileContract? ==> NulFree(change.contractHash)
    ensures AllStorable(Changed(apps, change).value)
  {
    var after := Changed(apps, change).value;
    forall i | 0 <= i < |after| ensures Storable(after[i]) {
      if change.ReconcileContract? && i == IndexOf(apps, change.appId) {
        var f, g := AppFields(apps[i]), AppFields(after[i]);
        assert Storable(apps[i]);
        assert forall k :: 0 <= k < 11 && k != 5 ==> g[k] == f[k];
        assert g[5] == change.contractHash;
      } else if change.ReconcileBootstrap? && SlugIndex(apps, change.app.slug) == i {
        assert Storable(apps[i]);
        assert AppFields(after[i]) == AppFields(change.app);
      }
    }
  }

  // ---------------------------------------------------------------- every run

  ghost predicate Consistent(env: Env, s: State) {
    && Inv(s) && CatalogOk(s.catalog) && Agrees(env, s)
    && AllStorable(s.catalog) && AllSourced(env, s.runs)
  }

  lemma StepKeepsAgreement(env: Env, s: State, e: Event)
    requires Inv(s) && CatalogOk(s.catalog) && Agrees(env, s)
    ensures CatalogOk(Step(env, s, e).catalog) && Agrees(env, Step(env, s, e))
  {
    match e
    case Change(change, cascade, ids, now) => ChangeKeepsAgreement(env, s, change, cascade, ids, now);
    case Enqueue(ref, ids, now) => RequeueKeepsAgreement(env, s, ref, ids, now);
    case _ =>
      OtherStepsQueueNothing(env, s, e);
      ShrinkingQueueKeepsAgreement(env, s, Step(env, s, e));
  }

  lemma OtherStepsQueueNothing(env: Env, s: State, e: Event)
    requires !e.Change? && !e.Enqueue?
    ensures QueuesNothing(s.runs, Step(env, s, e).runs) && Step(env, s, e).catalog == s.catalog
  {
  }

  lemma RequeueKeepsSourced(env: Env, s: State, ref: ManagedAppRef, ids: seq<(Uuid, Uuid)>, now: Time)
    requires AllStorable(s.catalog) && AllSourced(env, s.runs)
    ensures AllSourced(env, Requeued(env, s, ref, ids, now).runs)
  {
    if FreshIds(s.runs, s.catalog, ids) {
      EnqueueKeepsSourced(env, s.runs, s.catalog, ref, |s.catalog|, ids, now);
    }
  }

  lemma ChangeKeepsSourced(env: Env, s: State, change: Change, cascade: bool, ids: seq<(Uuid, Uuid)>, now: Time)
    requires AllStorable(s.catalog) && AllSourced(env, s.runs) && WritesStorable(Event.Change(change, cascade, ids, now))
    ensures var t := ChangeCatalog(env, s, change, cascade, ids, now);
      AllStorable(t.catalog) && AllSourced(env, t.runs)
  {
    if Changed(s.catalog, change).Some? {
      ChangesKeepStorable(s.catalog, change);
      var changed := AfterCascade(s, change, cascade).(catalog := Changed(s.catalog, change).value);
      RequeueKeepsSourced(env, changed, EVERY_APP, ids, now);
    }
  }

  lemma ClaimKeepsSourced(env: Env, s: State, e: Event)
    requires AllSourced(env, s.runs) && e.Claim?
    ensures AllSourced(env, Step(env, s, e).runs) && Step(env, s, e).catalog == s.catalog
  {
    var reaped := Reap(s, e.now);
    FinishingKeepsSourced(env, s, Abandoned(s, e.now), Failed, e.now);
    if e.outcome.Claimed? && e.outcome.run in reaped.runs && e.outcome.user in reaped.pool {
      LeasingKeepsSourced(env, reaped, e.outcome.run, e.outcome.user, e.now);
    }
  }

  lemma StepKeepsSourced(env: Env, s: State, e: Event)
    requires AllStorable(s.catalog) && AllSourced(env, s.runs) && WritesStorable(e)
    ensures AllStorable(Step(env, s, e).catalog) && AllSourced(env, Step(env, s, e).runs)
  {
    match e
    case Change(change, cascade, ids, now) => ChangeKeepsSourced(env, s, change, cascade, ids, now);
    case Enqueue(ref, ids, now) => RequeueKeepsSourced(env, s, ref, ids, now);
    case Claim(_, _, _, _) =>
      ClaimKeepsSourced(env, s, e);
    case CompleteRun(run, passed, now) => FinishingKeepsSourced(env, s, {run}, if passed then Passed else Failed, now);
    case Expire(now) => FinishingKeepsSourced(env, s, Abandoned(s, now), Failed, now);
    case Provision(username, userIds) =>
  }

  lemma StepKeepsConsistent(env: Env, s: State, e: Event)
    requires Consistent(env, s) && WritesStorable(e)
    ensures Consistent(env, Step(env, s, e))
  {
    StepKeepsInv(env, s, e);
    StepKeepsAgreement(env, s, e);
    StepKeepsSourced(env, s, e);
  }

  /** After every transaction of every history, the queue agrees with the catalog. */
  lemma {:induction false} QueueAlwaysAgrees(env: Env, events: seq<Event>)
    requires forall i :: 0 <= i < |events| ==> WritesStorable(events[i])
    ensures Consistent(env, Exec(env, EMPTY, events))
    decreases |events|
  {
    if events != [] {
      QueueAlwaysAgrees(env, events[..|events| - 1]);
      StepKeepsConsistent(env, Exec(env, EMPTY, events[..|events| - 1]), events[|events| - 1]);
    }
  }

  /** With a collision-free digest that agreement reaches the columns: a queued check of
      a cataloged application copies its present registration and its present witness. */
  lemma QueuedColumnsAreCurrent(env: Env, s: State, id: Uuid, app: ManagedApp)
    requires Consistent(env, s) && CollisionFree(env)
    requires app in s.catalog && id in QueuedIds(s) && s.runs[id].target.appId == app.id
    ensures s.runs[id].target == CopyOf(app)
    ensures s.runs[id].peer == CopyOfPeer(ValidationWitness(env, app, s.catalog))
    ensures CopiesApp(s.runs[id].target, app)
    ensures var w := ValidationWitness(env, app, s.catalog);
      (s.runs[id].peer.Some? <==> w.Some?) && (w.Some? ==> CopiesApp(s.runs[id].peer.value, w.value))
  {
    var run := s.runs[id];
    var now := ValidationWitness(env, app, s.catalog);
    WitnessIsAnotherApp(env, app, s.catalog, IndexOf(s.catalog, app.id), 1);
    var i :| 0 <= i < |s.catalog| && s.catalog[i] == app;
    assert QueueCarries(s.runs, app.id, CurrentHash(env, s.catalog, app));
    assert Sourced(env, run);
    var source, peer :| EnqueuedFrom(env, run, source, peer);
    ContractHashPinsContract(env, source, peer, app, now);
  }
}
