/** The store methods over the queue's tables, statement by statement. */
module ValidationStore {
  import opened Common
  import opened Catalog
  import opened ValidationQueue
  import opened ValidationExclusion
  import opened ValidationProgress
  import opened ValidationColumns

  /** SELECT ... ORDER BY requested_at, id LIMIT 1 over a nonempty set of rows. */
  method OldestOf(runs: map<Uuid, Run>, ids: set<Uuid>) returns (oldest: Uuid)
    requires RowsOk(runs) && ids <= runs.Keys && ids != {}
    ensures IsOldest(runs, ids, oldest)
  {
    oldest :| oldest in ids;
    var todo := ids - {oldest};
    while todo != {}
      invariant todo <= ids && oldest in ids - todo
      invariant forall x :: x in ids - todo && x != oldest ==> Before(runs[oldest], runs[x])
    {
      var id :| id in todo;
      assert RowOk(id, runs[id]) && RowOk(oldest, runs[oldest]);
      TextOrderIsTotal(id.text, oldest.text);
      if Before(runs[id], runs[oldest]) {
        forall x | x in ids - todo && x != oldest ensures Before(runs[id], runs[x]) {
          BeforeIsTransitive(runs[id], runs[oldest], runs[x]);
        }
        oldest := id;
      }
      todo := todo - {id};
    }
  }

  /** The slugs an enqueue answers: the selected ones, in catalog order. */
  function SelectedSlugs(apps: seq<ManagedApp>, ref: ManagedAppRef): seq<string> {
    if apps == [] then []
    else
      var n := |apps| - 1;
      SelectedSlugs(apps[..n], ref) + if ref.Selects(apps[n]) then [apps[n].slug] else []
  }

  class Store {
    var catalog: seq<ManagedApp>
    var runs: map<Uuid, Run>
    var pool: map<Uuid, Identity>

    ghost function Tables(): State
      reads this
    {
      State(catalog, runs, pool)
    }

    /** Lease the oldest claimable check, reaping abandoned leases first. */
    method ClaimAppValidation(now: Time, lockedRuns: set<Uuid>, lockedUsers: set<Uuid>) returns (outcome: ClaimOutcome)
      requires Inv(Tables())
      modifies this
      ensures Claims(old(Tables()), now, lockedRuns, lockedUsers, outcome, Tables())
      ensures AnswersClaim(old(Tables()), now, lockedRuns, lockedUsers, outcome, Tables())
      ensures Inv(Tables())
    {
      outcome := LeaseOldest(now, lockedRuns, lockedUsers);
      ClaimAnswersInColumns(old(Tables()), now, lockedRuns, lockedUsers, outcome, Tables());
    }

    /** The statements of a claim, after the claim lock. */
    method LeaseOldest(now: Time, lockedRuns: set<Uuid>, lockedUsers: set<Uuid>) returns (outcome: ClaimOutcome)
      requires Inv(Tables())
      modifies this
      ensures Claims(old(Tables()), now, lockedRuns, lockedUsers, outcome, Tables())
      ensures Inv(Tables())
    {
      ghost var before := Tables();
      var savedRuns, savedPool := runs, pool;
      ReapLeases(now);
      ghost var reaped := Tables();
      var running := RunningIds(State(catalog, runs, pool));
      if |running| >= CONCURRENCY_LIMIT {
        return AtCapacity;
      }
      var ids := Claimable(State(catalog, runs, pool), lockedRuns);
      if ids == {} {
        return NothingClaimable;
      }
      var run := OldestOf(runs, ids);
      var free := FreeIdentities(State(catalog, runs, pool), lockedUsers);
      if free == {} {
        runs, pool := savedRuns, savedPool;
        return NoIdentity;
      }
      var user :| user in free;
      LeasingKeepsInv(reaped, run, user, now);
      pool := pool[user := pool[user].(checkedOut := Some(run))];
      runs := runs[run := runs[run].(status := Running, startedAt := Some(now), leaseExpiresAt := Some(now + LEASE_DURATION))];
      outcome := Claimed(run, user);
      assert Tables() == Lease(reaped, run, user, now);
    }

    /** Record a durable failure for every lease that ran out and free its identity. */
    method ExpireAbandonedAppValidation(now: Time)
      requires Inv(Tables())
      modifies this
      ensures Tables() == Reap(old(Tables()), now)
      ensures Expires(old(Tables()), Tables(), now)
      ensures Inv(Tables())
    {
      ReapLeases(now);
      ReapExpires(old(Tables()), now);
    }

    method ReapLeases(now: Time)
      requires Inv(Tables())
      modifies this
      ensures Tables() == Reap(old(Tables()), now)
      ensures Inv(Tables())
    {
      var expired := FailAbandoned(now);
      if expired != {} {
        pool := Released(pool, expired);
      } else {
        assert Released(pool, {}) == pool;
      }
      FinishingKeepsInv(old(Tables()), Abandoned(old(Tables()), now), Failed, now);
    }

    /** UPDATE ... WHERE status='running' AND lease_expires_at<now RETURNING id. */
    method FailAbandoned(now: Time) returns (expired: set<Uuid>)
      requires RowsOk(runs)
      modifies this`runs
      ensures expired == Abandoned(old(Tables()), now)
      ensures runs == FinishAll(old(Tables()), expired, Failed, now).runs
    {
      ghost var before := Tables();
      expired := {};
      var todo := runs.Keys;
      while todo != {}
        invariant todo <= before.runs.Keys
        invariant expired == Abandoned(before, now) - todo
        invariant runs == FinishAll(before, expired, Failed, now).runs
        decreases todo
      {
        var id :| id in todo;
        assert RowOk(id, before.runs[id]) && runs[id] == before.runs[id];
        if runs[id].status == Running && runs[id].leaseExpiresAt.value < now {
          expired := expired + {id};
          runs := runs[id := runs[id].(status := Failed, completedAt := Some(now), leaseExpiresAt := None)];
        }
        todo := todo - {id};
      }
    }

    /** End one running check; anything else is an error that changes nothing. */
    method CompleteAppValidation(run: Uuid, passed: bool, now: Time) returns (found: bool)
      requires Inv(Tables())
      modifies this
      ensures found == (run in RunningIds(old(Tables())))
      ensures Tables() == Complete(old(Tables()), run, passed, now)
      ensures if found then Completes(old(Tables()), Tables(), run, passed, now) else Tables() == old(Tables())
      ensures Inv(Tables())
    {
      ghost var before := Tables();
      if run !in runs || runs[run].status != Running {
        return false;
      }
      FinishingKeepsInv(before, {run}, if passed then Passed else Failed, now);
      runs := runs[run := runs[run].(status := if passed then Passed else Failed, completedAt := Some(now), leaseExpiresAt := None)];
      pool := Released(pool, {run});
      assert runs == FinishAll(before, {run}, if passed then Passed else Failed, now).runs;
      return true;
    }

    /** Queue both checks of the referenced applications and answer their slugs; a
        reference that matches none is an error that changes nothing. */
    method EnqueueAppValidations(env: Env, ref: ManagedAppRef, ids: seq<(Uuid, Uuid)>, now: Time) returns (slugs: Option<seq<string>>)
      requires Inv(Tables()) && FreshIds(runs, catalog, ids)
      modifies this
      ensures slugs.None? <==> !ref.All() && forall i :: 0 <= i < |catalog| ==> !ref.Selects(catalog[i])
      ensures slugs.None? ==> Tables() == old(Tables())
      ensures slugs.Some? ==> slugs.value == SelectedSlugs(catalog, ref) && Tables() == Requeued(env, old(Tables()), ref, ids, now)
      ensures Inv(Tables())
    {
      RequeueKeepsInv(env, Tables(), ref, ids, now);
      var saved := runs;
      var queued := EnqueueSelected(env, ref, ids, now);
      if queued == [] && !ref.All() {
        runs := saved;
        return None;
      }
      return Some(queued);
    }

    method EnqueueSelected(env: Env, ref: ManagedAppRef, ids: seq<(Uuid, Uuid)>, now: Time) returns (queued: seq<string>)
      requires |ids| == |catalog|
      modifies this`runs
      ensures runs == EnqueueFirst(env, old(runs), catalog, ref, |catalog|, ids, now)
      ensures queued == SelectedSlugs(catalog, ref)
      ensures queued == [] <==> forall j :: 0 <= j < |catalog| ==> !ref.Selects(catalog[j])
    {
      queued := [];
      var i := 0;
      while i < |catalog|
        invariant 0 <= i <= |catalog|
        invariant runs == EnqueueFirst(env, old(runs), catalog, ref, i, ids, now)
        invariant queued == SelectedSlugs(catalog[..i], ref)
        invariant queued == [] <==> forall j :: 0 <= j < i ==> !ref.Selects(catalog[j])
      {
        var app := catalog[i];
        assert catalog[..i + 1][..i] == catalog[..i];
        if ref.All() || ref.Matches(app) {
          var peer := FindValidationWitness(env, app, catalog);
          EnqueueOne(env, app, peer, ids[i], now);
          queued := queued + [app.slug];
        }
        i := i + 1;
      }
      assert catalog[..i] == catalog;
    }

    /** enqueueAppValidation: both directions in turn. */
    method EnqueueOne(env: Env, app: ManagedApp, peer: Option<ManagedApp>, ids: (Uuid, Uuid), now: Time)
      modifies this`runs
      ensures runs == EnqueueApp(env, old(runs), app, peer, ids, now)
    {
      var hash := ContractHash(env, app, peer);
      var directions := [FromShauth, FromApp];
      var uuids := [ids.0, ids.1];
      var d := 0;
      while d < 2
        invariant 0 <= d <= 2
        invariant d == 0 ==> runs == old(runs)
        invariant d == 1 ==> runs == EnqueueDirection(env, old(runs), app, peer, FromShauth, ids.0, now)
        invariant d == 2 ==> runs == EnqueueApp(env, old(runs), app, peer, ids, now)
      {
        runs := runs - Superseded(runs, app.id, directions[d], hash);
        if PendingFor(runs, app.id, directions[d], hash) == {} {
          runs := runs[uuids[d] := Run(uuids[d], CopyOf(app), CopyOfPeer(peer), directions[d], hash, Queued, now, None, None, None)];
        }
        d := d + 1;
      }
    }
  }
}
