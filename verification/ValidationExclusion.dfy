/** What every reachable queue state satisfies. */
module ValidationExclusion {
  import opened Common
  import opened Catalog
  import opened ValidationQueue

  // The concurrency bound, exclusive use of applications, and the pairing of identities with runs.

  ghost predicate RowOk(id: Uuid, run: Run) {
    && run.id == id
    && (run.status == Running <==> run.startedAt.Some? && run.leaseExpiresAt.Some?)
    && (run.status == Running ==> run.leaseExpiresAt.value == run.startedAt.value + LEASE_DURATION)
    && ((run.status == Passed || run.status == Failed) <==> run.completedAt.Some?)
    && (run.peer.Some? ==> run.peer.value.appId != run.target.appId)
  }

  ghost predicate RowsOk(runs: map<Uuid, Run>) {
    forall id :: id in runs ==> RowOk(id, runs[id])
  }

  predicate SameQueue(a: Run, b: Run) {
    a.target.appId == b.target.appId && a.direction == b.direction
  }

  predicate SameContractSlot(a: Run, b: Run) {
    SameQueue(a, b) && a.hash == b.hash
  }

  predicate ShareApp(a: Run, b: Run) {
    AppsOf(a) * AppsOf(b) != {}
  }

  /** At most one pending run per application, direction and contract. */
  ghost predicate PendingUnique(runs: map<Uuid, Run>) {
    forall a, b {:trigger SameContractSlot(runs[a], runs[b])} ::
      a in runs && b in runs && a != b && Pending(runs[a]) && Pending(runs[b]) ==> !SameContractSlot(runs[a], runs[b])
  }

  /** At most one queued run per application and direction. */
  ghost predicate OneQueued(runs: map<Uuid, Run>) {
    forall a, b {:trigger SameQueue(runs[a], runs[b])} ::
      a in runs && b in runs && a != b && runs[a].status == Queued && runs[b].status == Queued ==> !SameQueue(runs[a], runs[b])
  }

  ghost predicate RunsInv(runs: map<Uuid, Run>) {
    RowsOk(runs) && PendingUnique(runs) && OneQueued(runs)
  }

  /** No application serves two running checks, in any role. */
  ghost predicate Exclusive(runs: map<Uuid, Run>) {
    forall a, b {:trigger ShareApp(runs[a], runs[b])} ::
      a in runs && b in runs && a != b && runs[a].status == Running && runs[b].status == Running ==> !ShareApp(runs[a], runs[b])
  }

  ghost predicate HolderOf(pool: map<Uuid, Identity>, user: Uuid, run: Uuid) {
    user in pool && pool[user].checkedOut == Some(run)
  }

  /** Checked-out identities and running runs correspond one to one. */
  ghost predicate Paired(s: State) {
    && (forall u, r :: HolderOf(s.pool, u, r) ==> r in RunningIds(s))
    && (forall u, v, r :: HolderOf(s.pool, u, r) && HolderOf(s.pool, v, r) ==> u == v)
    && (forall r :: r in RunningIds(s) ==> exists u :: HolderOf(s.pool, u, r))
  }

  ghost predicate Inv(s: State) {
    && RunsInv(s.runs)
    && |RunningIds(s)| <= CONCURRENCY_LIMIT
    && Exclusive(s.runs)
    && Paired(s)
  }

  // ---------------------------------------------------------------- finishing

  /** Rows that are pending and were before, unchanged, keep every pairwise rule. */
  lemma FewerPendingKeepsRows(before: map<Uuid, Run>, after: map<Uuid, Run>)
    requires RunsInv(before) && Exclusive(before) && RowsOk(after)
    requires forall id :: id in after && Pending(after[id]) ==> id in before && after[id] == before[id]
    ensures RunsInv(after) && Exclusive(after)
  {
  }

  lemma FinishingKeepsRows(s: State, ids: set<Uuid>, status: Status, now: Time)
    requires RunsInv(s.runs) && Exclusive(s.runs)
    requires ids <= RunningIds(s) && (status == Passed || status == Failed)
    ensures RunsInv(FinishAll(s, ids, status, now).runs) && Exclusive(FinishAll(s, ids, status, now).runs)
  {
    var t := FinishAll(s, ids, status, now);
    forall id | id in t.runs
      ensures RowOk(id, t.runs[id])
    {
      assert RowOk(id, s.runs[id]);
    }
    FewerPendingKeepsRows(s.runs, t.runs);
  }

  lemma FinishingMovesIds(s: State, ids: set<Uuid>, status: Status, now: Time)
    requires ids <= RunningIds(s) && (status == Passed || status == Failed)
    ensures RunningIds(FinishAll(s, ids, status, now)) == RunningIds(s) - ids
    ensures QueuedIds(FinishAll(s, ids, status, now)) == QueuedIds(s)
  {
  }

  /** Ending running runs and releasing their identities keeps the invariant and
      removes exactly those runs from the running set. */
  lemma FinishingKeepsInv(s: State, ids: set<Uuid>, status: Status, now: Time)
    requires Inv(s) && ids <= RunningIds(s) && (status == Passed || status == Failed)
    ensures Inv(FinishAll(s, ids, status, now))
    ensures RunningIds(FinishAll(s, ids, status, now)) == RunningIds(s) - ids
    ensures QueuedIds(FinishAll(s, ids, status, now)) == QueuedIds(s)
    ensures FinishAll(s, ids, status, now).pool.Keys == s.pool.Keys
    ensures forall u, r :: HolderOf(FinishAll(s, ids, status, now).pool, u, r) <==> HolderOf(s.pool, u, r) && r !in ids
  {
    var t := FinishAll(s, ids, status, now);
    FinishingKeepsRows(s, ids, status, now);
    FinishingMovesIds(s, ids, status, now);
    SubsetIsNoLarger(RunningIds(t), RunningIds(s));
    ReleasingKeepsPaired(s, t, ids);
  }

  lemma ReleasingKeepsPaired(s: State, t: State, ids: set<Uuid>)
    requires Paired(s) && t.pool == Released(s.pool, ids) && RunningIds(t) == RunningIds(s) - ids
    ensures Paired(t)
  {
    forall u, r | HolderOf(t.pool, u, r) ensures HolderOf(s.pool, u, r) && r in RunningIds(t) {
      assert HolderOf(s.pool, u, r);
    }
    forall r | r in RunningIds(t) ensures exists u :: HolderOf(t.pool, u, r) {
      var u :| HolderOf(s.pool, u, r);
      assert HolderOf(t.pool, u, r);
    }
  }

  // ---------------------------------------------------------------- claiming

  lemma LeasingKeepsRows(s: State, run: Uuid, user: Uuid, now: Time)
    requires RunsInv(s.runs) && Exclusive(s.runs)
    requires run in QueuedIds(s) && AppsOf(s.runs[run]) !! BusyApps(s) && user in s.pool
    ensures RunsInv(Lease(s, run, user, now).runs) && Exclusive(Lease(s, run, user, now).runs)
  {
    var after := Lease(s, run, user, now).runs;
    forall id | id in after ensures RowOk(id, after[id]) { assert RowOk(id, s.runs[id]); }
    forall a, b | a in after && b in after
      ensures SameContractSlot(after[a], after[b]) == SameContractSlot(s.runs[a], s.runs[b])
      ensures SameQueue(after[a], after[b]) == SameQueue(s.runs[a], s.runs[b])
    {
    }
    forall a | a in after && a != run && after[a].status == Running
      ensures !ShareApp(after[a], after[run]) && !ShareApp(after[run], after[a])
    {
      assert a in RunningIds(s);
      assert AppsOf(after[a]) <= BusyApps(s);
    }
  }

  lemma LeasingKeepsPaired(s: State, run: Uuid, user: Uuid, now: Time)
    requires Paired(s) && run in QueuedIds(s) && user in s.pool && s.pool[user].checkedOut.None?
    ensures Paired(Lease(s, run, user, now))
    ensures RunningIds(Lease(s, run, user, now)) == RunningIds(s) + {run}
  {
    var t := Lease(s, run, user, now);
    assert RunningIds(t) == RunningIds(s) + {run};
    forall u, r | HolderOf(t.pool, u, r) ensures if u == user then r == run else HolderOf(s.pool, u, r) {
    }
    forall r | r in RunningIds(t) ensures exists u :: HolderOf(t.pool, u, r) {
      if r == run {
        assert HolderOf(t.pool, user, r);
      } else {
        var u :| HolderOf(s.pool, u, r);
        assert HolderOf(t.pool, u, r);
      }
    }
  }

  lemma LeasingKeepsInv(s: State, run: Uuid, user: Uuid, now: Time)
    requires Inv(s) && |RunningIds(s)| < CONCURRENCY_LIMIT
    requires run in QueuedIds(s) && AppsOf(s.runs[run]) !! BusyApps(s)
    requires user in s.pool && s.pool[user].checkedOut.None?
    ensures Inv(Lease(s, run, user, now))
    ensures RunningIds(Lease(s, run, user, now)) == RunningIds(s) + {run}
    ensures QueuedIds(Lease(s, run, user, now)) == QueuedIds(s) - {run}
  {
    LeasingKeepsRows(s, run, user, now);
    LeasingKeepsPaired(s, run, user, now);
    assert QueuedIds(Lease(s, run, user, now)) == QueuedIds(s) - {run};
  }

  lemma ClaimKeepsInv(s: State, now: Time, lockedRuns: set<Uuid>, lockedUsers: set<Uuid>, outcome: ClaimOutcome, after: State)
    requires Inv(s) && Claims(s, now, lockedRuns, lockedUsers, outcome, after)
    ensures Inv(after)
  {
    var reaped := Reap(s, now);
    FinishingKeepsInv(s, Abandoned(s, now), Failed, now);
    if outcome.Claimed? {
      LeasingKeepsInv(reaped, outcome.run, outcome.user, now);
    }
  }

  // ---------------------------------------------------------------- enqueueing

  /** Enqueueing touches queued rows only: running and finished rows stay as they are. */
  ghost predicate OnlyQueueChanges(before: map<Uuid, Run>, after: map<Uuid, Run>) {
    && (forall id :: id in before && before[id].status != Queued ==> id in after && after[id] == before[id])
    && (forall id :: id in after && after[id].status != Queued ==> id in before && after[id] == before[id])
  }

  lemma EnqueueDirectionKeepsRunsInv(env: Env, runs: map<Uuid, Run>, app: ManagedApp, peer: Option<ManagedApp>,
                                     direction: Direction, id: Uuid, now: Time)
    requires RunsInv(runs) && id !in runs
    requires peer.Some? ==> peer.value.id != app.id
    ensures RunsInv(EnqueueDirection(env, runs, app, peer, direction, id, now))
    ensures OnlyQueueChanges(runs, EnqueueDirection(env, runs, app, peer, direction, id, now))
    ensures EnqueueDirection(env, runs, app, peer, direction, id, now).Keys <= runs.Keys + {id}
  {
    var hash := ContractHash(env, app, peer);
    var kept := runs - Superseded(runs, app.id, direction, hash);
    var after := EnqueueDirection(env, runs, app, peer, direction, id, now);
    assert forall x :: x in kept ==> x in runs && kept[x] == runs[x];
    if PendingFor(kept, app.id, direction, hash) == {} {
      forall x | x in kept && Pending(kept[x]) && kept[x].target.appId == app.id && kept[x].direction == direction
        ensures kept[x].hash != hash && kept[x].status != Queued
      {
        assert x !in PendingFor(kept, app.id, direction, hash);
      }
    }
  }

  lemma WitnessIsAnotherApp(env: Env, app: ManagedApp, apps: seq<ManagedApp>, start: int, offset: nat)
    requires -1 <= start < |apps| || apps == []
    requires offset >= 1
    ensures RingFrom(env, app, apps, start, offset).Some? ==> RingFrom(env, app, apps, start, offset).value.id != app.id
    ensures RingFrom(env, app, apps, start, offset).Some? ==> RingFrom(env, app, apps, start, offset).value in apps
    decreases |apps| - offset
  {
  }

  lemma {:induction false} EnqueueKeepsRunsInv(env: Env, runs: map<Uuid, Run>, apps: seq<ManagedApp>, ref: ManagedAppRef,
                                               n: nat, ids: seq<(Uuid, Uuid)>, now: Time)
    requires RunsInv(runs) && FreshIds(runs, apps, ids) && n <= |apps|
    ensures RunsInv(EnqueueFirst(env, runs, apps, ref, n, ids, now))
    ensures OnlyQueueChanges(runs, EnqueueFirst(env, runs, apps, ref, n, ids, now))
    ensures forall i :: n <= i < |ids| ==>
      ids[i].0 !in EnqueueFirst(env, runs, apps, ref, n, ids, now) && ids[i].1 !in EnqueueFirst(env, runs, apps, ref, n, ids, now)
  {
    if n > 0 {
      EnqueueKeepsRunsInv(env, runs, apps, ref, n - 1, ids, now);
      var before := EnqueueFirst(env, runs, apps, ref, n - 1, ids, now);
      var app := apps[n - 1];
      if ref.Selects(app) {
        var peer := ValidationWitness(env, app, apps);
        WitnessIsAnotherApp(env, app, apps, IndexOf(apps, app.id), 1);
        var middle := EnqueueDirection(env, before, app, peer, FromShauth, ids[n - 1].0, now);
        EnqueueDirectionKeepsRunsInv(env, before, app, peer, FromShauth, ids[n - 1].0, now);
        EnqueueDirectionKeepsRunsInv(env, middle, app, peer, FromApp, ids[n - 1].1, now);
        forall i | n <= i < |ids| ensures ids[i].0 !in {ids[n - 1].0, ids[n - 1].1} && ids[i].1 !in {ids[n - 1].0, ids[n - 1].1} {
          assert {ids[n - 1].0, ids[n - 1].1} !! {ids[i].0, ids[i].1};
        }
      }
    }
  }

  lemma QueueChangesKeepInv(s: State, runs: map<Uuid, Run>)
    requires Inv(s) && RunsInv(runs) && OnlyQueueChanges(s.runs, runs)
    ensures Inv(s.(runs := runs))
  {
    assert RunningIds(s.(runs := runs)) == RunningIds(s);
  }

  lemma RequeueKeepsInv(env: Env, s: State, ref: ManagedAppRef, ids: seq<(Uuid, Uuid)>, now: Time)
    requires Inv(s)
    ensures Inv(Requeued(env, s, ref, ids, now))
  {
    if FreshIds(s.runs, s.catalog, ids) {
      EnqueueKeepsRunsInv(env, s.runs, s.catalog, ref, |s.catalog|, ids, now);
      QueueChangesKeepInv(s, EnqueueFirst(env, s.runs, s.catalog, ref, |s.catalog|, ids, now));
    }
  }

  lemma CascadeKeepsInv(s: State, change: Change, cascade: bool)
    requires Inv(s)
    ensures Inv(AfterCascade(s, change, cascade))
  {
    var t := AfterCascade(s, change, cascade);
    var i := if change.DeleteApp? then SlugIndex(s.catalog, change.slug) else -1;
    if i >= 0 && cascade {
      var gone := set id | id in s.runs && s.runs[id].target.appId == s.catalog[i].id;
      assert RunningIds(t) == RunningIds(s) - gone;
      SubsetIsNoLarger(RunningIds(t), RunningIds(s));
      ReleasingKeepsPaired(s, t, gone);
      FewerPendingKeepsRows(s.runs, t.runs);
    }
  }

  // ---------------------------------------------------------------- the pool

  /** One slot: an identity of that name exists afterwards, and nothing else changed. */
  lemma ProvisionOneSlot(pool: map<Uuid, Identity>, name: string, id: Uuid)
    requires id !in pool
    ensures var after := if Provisioned(pool, name) then pool else pool[id := Identity(name, None)];
      Provisioned(after, name) && forall other :: Provisioned(pool, other) ==> Provisioned(after, other)
  {
    var after := if Provisioned(pool, name) then pool else pool[id := Identity(name, None)];
    if !Provisioned(pool, name) {
      assert after[id].username == name;
    }
    forall other | Provisioned(pool, other)
      ensures Provisioned(after, other)
    {
      var u :| u in pool && pool[u].username == other;
      assert u in after && after[u] == pool[u];
    }
  }

  lemma {:induction false} ProvisioningKeepsCheckouts(pool: map<Uuid, Identity>, username: string, ids: seq<Uuid>, n: nat)
    requires FreshUsers(pool, ids) && n <= |SLOTS|
    ensures var after := ProvisionFirst(pool, username, ids, n);
      && (forall u :: u in pool ==> u in after && after[u] == pool[u])
      && (forall u :: u in after && u !in pool ==> after[u].checkedOut.None?)
      && (forall i :: n <= i < |ids| ==> ids[i] !in after)
      && (forall i :: 0 <= i < n ==> Provisioned(after, username + SLOTS[i]))
  {
    if n > 0 {
      ProvisioningKeepsCheckouts(pool, username, ids, n - 1);
      var before := ProvisionFirst(pool, username, ids, n - 1);
      ProvisionOneSlot(before, username + SLOTS[n - 1], ids[n - 1]);
    }
  }

  /** Provisioning leaves at least three identities in the pool. */
  lemma ProvisionedPoolHoldsThree(pool: map<Uuid, Identity>, username: string, ids: seq<Uuid>)
    requires FreshUsers(pool, ids)
    ensures |ProvisionFirst(pool, username, ids, |SLOTS|)| >= CONCURRENCY_LIMIT
  {
    ProvisioningKeepsCheckouts(pool, username, ids, |SLOTS|);
    var after := ProvisionFirst(pool, username, ids, |SLOTS|);
    assert forall i :: 0 <= i < |SLOTS| ==> Provisioned(after, username + SLOTS[i]);
    var a :| a in after && after[a].username == username + SLOTS[0];
    var b :| b in after && after[b].username == username + SLOTS[1];
    var c :| c in after && after[c].username == username + SLOTS[2];
    SuffixesDiffer(username);
    SubsetIsNoLarger({a, b, c}, after.Keys);
  }

  lemma SuffixesDiffer(username: string)
    ensures username + "-1" != username + "-2"
    ensures username + "-1" != username + "-3"
    ensures username + "-2" != username + "-3"
  {
    var n := |username|;
    assert (username + "-1")[n + 1] == '1' && (username + "-2")[n + 1] == '2' && (username + "-3")[n + 1] == '3';
  }

  // ---------------------------------------------------------------- every run

  lemma ChangeKeepsInv(env: Env, s: State, change: Change, cascade: bool, ids: seq<(Uuid, Uuid)>, now: Time)
    requires Inv(s)
    ensures Inv(ChangeCatalog(env, s, change, cascade, ids, now))
  {
    CascadeKeepsInv(s, change, cascade);
    if Changed(s.catalog, change).Some? {
      var changed := AfterCascade(s, change, cascade).(catalog := Changed(s.catalog, change).value);
      assert Inv(changed);
      RequeueKeepsInv(env, changed, EVERY_APP, ids, now);
    }
  }

  lemma ProvisioningKeepsInv(s: State, username: string, ids: seq<Uuid>)
    requires Inv(s) && FreshUsers(s.pool, ids)
    ensures Inv(s.(pool := ProvisionFirst(s.pool, username, ids, |SLOTS|)))
  {
    ProvisioningKeepsCheckouts(s.pool, username, ids, |SLOTS|);
    var t := s.(pool := ProvisionFirst(s.pool, username, ids, |SLOTS|));
    assert forall u, r :: HolderOf(t.pool, u, r) <==> HolderOf(s.pool, u, r);
    assert RunningIds(t) == RunningIds(s);
  }

  lemma ClaimStepKeepsInv(env: Env, s: State, e: Event)
    requires Inv(s) && e.Claim?
    ensures Inv(Step(env, s, e))
  {
    var after := Step(env, s, e);
    if after != s {
      ClaimKeepsInv(s, e.now, e.lockedRuns, e.lockedUsers, e.outcome, after);
    }
  }

  lemma CompletingKeepsInv(s: State, run: Uuid, passed: bool, now: Time)
    requires Inv(s)
    ensures Inv(Complete(s, run, passed, now))
  {
    if run in RunningIds(s) {
      FinishingKeepsInv(s, {run}, if passed then Passed else Failed, now);
    }
  }

  lemma ReapingKeepsInv(s: State, now: Time)
    requires Inv(s)
    ensures Inv(Reap(s, now))
  {
    FinishingKeepsInv(s, Abandoned(s, now), Failed, now);
  }

  lemma StepKeepsInv(env: Env, s: State, e: Event)
    requires Inv(s)
    ensures Inv(Step(env, s, e))
  {
    if e.Claim? {
      ClaimStepKeepsInv(env, s, e);
    } else {
      OtherStepKeepsInv(env, s, e);
    }
  }

  lemma OtherStepKeepsInv(env: Env, s: State, e: Event)
    requires Inv(s) && !e.Claim?
    ensures Inv(Step(env, s, e))
  {
    match e
    case Change(change, cascade, ids, now) => ChangeKeepsInv(env, s, change, cascade, ids, now);
    case Enqueue(ref, ids, now) => RequeueKeepsInv(env, s, ref, ids, now);
    case CompleteRun(run, passed, now) => CompletingKeepsInv(s, run, passed, now);
    case Expire(now) => ReapingKeepsInv(s, now);
    case Provision(username, userIds) =>
      if FreshUsers(s.pool, userIds) {
        ProvisioningKeepsInv(s, username, userIds);
      }
  }

  /** In every state any history of transactions can reach: at most three running
      checks, no application in two of them, target and witness of each distinct, and
      identities checked out one to one to running checks. */
  lemma {:induction false} EveryReachableStateIsExclusive(env: Env, events: seq<Event>)
    ensures Inv(Exec(env, EMPTY, events))
    decreases |events|
  {
    if events != [] {
      EveryReachableStateIsExclusive(env, events[..|events| - 1]);
      StepKeepsInv(env, Exec(env, EMPTY, events[..|events| - 1]), events[|events| - 1]);
    }
  }

  /** The pairing counted: as many identities are out as checks are running. */
  lemma CheckedOutCountIsRunningCount(s: State)
    requires Inv(s)
    ensures |FreeIdentities(s, {})| == |s.pool| - |RunningIds(s)|
  {
    var held := set u | u in s.pool && s.pool[u].checkedOut.Some?;
    var runOf := map u | u in held :: s.pool[u].checkedOut.value;
    var image := set u | u in held :: runOf[u];
    forall u | u in held ensures HolderOf(s.pool, u, runOf[u]) {}
    forall r | r in RunningIds(s) ensures r in image {
      var u :| HolderOf(s.pool, u, r);
      assert u in held && runOf[u] == r;
    }
    assert image == RunningIds(s);
    InjectiveImageHasSameSize(held, image, runOf);
    assert FreeIdentities(s, {}) == s.pool.Keys - held;
    SubsetIsNoLarger(held, s.pool.Keys);
  }
}
