/** Claims answer and empty the queue. */
module ValidationProgress {
  import opened Common
  import opened Catalog
  import opened ValidationQueue
  import opened ValidationExclusion
  import opened ValidationCreations

  // A claim never lacks an identity it could have had, and any series of claims, completions
  // and expiries ends with nothing left to check.

  // ---------------------------------------------------------------- the oldest run

  lemma BeforeIsTransitive(a: Run, b: Run, c: Run)
    requires Before(a, b) && Before(b, c)
    ensures Before(a, c)
  {
    if a.requestedAt == b.requestedAt == c.requestedAt { TextOrderIsTransitive(a.id.text, b.id.text, c.id.text); }
  }

  /** Any set of stored runs has exactly one oldest. */
  lemma {:induction false} OldestExists(runs: map<Uuid, Run>, ids: set<Uuid>) returns (oldest: Uuid)
    requires RowsOk(runs) && ids <= runs.Keys && ids != {}
    ensures IsOldest(runs, ids, oldest)
    decreases |ids|
  {
    var id :| id in ids;
    var rest := ids - {id};
    oldest := id;
    assert ids == rest + {id};
    if rest != {} {
      var other := OldestExists(runs, rest);
      assert RowOk(id, runs[id]) && RowOk(other, runs[other]);
      TextOrderIsTotal(id.text, other.text);
      if Before(runs[id], runs[other]) {
        forall x | x in ids && x != id ensures Before(runs[id], runs[x]) {
          if x != other { BeforeIsTransitive(runs[id], runs[other], runs[x]); }
        }
      } else {
        oldest := other;
      }
    }
  }

  lemma OldestIsUnique(runs: map<Uuid, Run>, ids: set<Uuid>, a: Uuid, b: Uuid)
    requires RowsOk(runs) && ids <= runs.Keys && IsOldest(runs, ids, a) && IsOldest(runs, ids, b)
    ensures a == b
  {
    assert RowOk(a, runs[a]) && RowOk(b, runs[b]);
    TextOrderIsTotal(a.text, b.text);
  }

  /** Every state admits an answer to a claim, whatever rows are locked. */
  lemma ClaimAlwaysAnswers(s: State, now: Time, lockedRuns: set<Uuid>, lockedUsers: set<Uuid>)
    returns (outcome: ClaimOutcome, after: State)
    requires Inv(s)
    ensures Claims(s, now, lockedRuns, lockedUsers, outcome, after)
  {
    var reaped := Reap(s, now);
    FinishingKeepsInv(s, Abandoned(s, now), Failed, now);
    var ids := Claimable(reaped, lockedRuns);
    var free := FreeIdentities(reaped, lockedUsers);
    if |RunningIds(reaped)| >= CONCURRENCY_LIMIT {
      outcome, after := AtCapacity, reaped;
    } else if ids == {} {
      outcome, after := NothingClaimable, reaped;
    } else if free == {} {
      outcome, after := NoIdentity, s;
    } else {
      var run := OldestExists(reaped.runs, ids);
      var user :| user in free;
      outcome, after := Claimed(run, user), Lease(reaped, run, user, now);
    }
  }

  /** A queued row older than the claimed one was passed over because an application of it is busy. */
  lemma OlderIsBusy(s: State, ids: set<Uuid>, locked: set<Uuid>, run: Uuid, id: Uuid)
    requires RowsOk(s.runs) && ids == Claimable(s, locked) && IsOldest(s.runs, ids, run)
    requires id in QueuedIds(s) - locked - {run} && Before(s.runs[id], s.runs[run])
    ensures AppsOf(s.runs[id]) * BusyApps(s) != {}
  {
    assert RowOk(id, s.runs[id]) && RowOk(run, s.runs[run]);
    TextOrderIsTotal(id.text, run.text);
  }

  /** What a claim hands out is running under a fresh lease, was the oldest queued run
      whose applications nobody was using, and moved no other pending run. */
  lemma ClaimTakesOldestIdle(s: State, now: Time, lockedRuns: set<Uuid>, lockedUsers: set<Uuid>, outcome: ClaimOutcome, after: State)
    requires Inv(s) && Claims(s, now, lockedRuns, lockedUsers, outcome, after) && outcome.Claimed?
    ensures outcome.run in QueuedIds(s) && outcome.run !in lockedRuns
    ensures after.runs[outcome.run] == Leased(s.runs[outcome.run], now)
    ensures HolderOf(after.pool, outcome.user, outcome.run)
    ensures forall id :: id in QueuedIds(s) - lockedRuns - {outcome.run} && Before(s.runs[id], s.runs[outcome.run])
                         ==> AppsOf(s.runs[id]) * BusyApps(Reap(s, now)) != {}
    ensures forall id :: id in s.runs && id != outcome.run && id !in Abandoned(s, now) ==> after.runs[id] == s.runs[id]
  {
    var reaped := Reap(s, now);
    assert RowsOk(reaped.runs) by {
      FinishingKeepsInv(s, Abandoned(s, now), Failed, now);
    }
    forall id | id in QueuedIds(s) - lockedRuns - {outcome.run} && Before(s.runs[id], s.runs[outcome.run])
      ensures AppsOf(s.runs[id]) * BusyApps(reaped) != {}
    {
      OlderIsBusy(reaped, Claimable(reaped, lockedRuns), lockedRuns, outcome.run, id);
    }
  }

  // ---------------------------------------------------------------- identities

  /** A claim fails for want of an identity exactly when there is capacity, a run to
      claim, and another transaction holds every identity that is not checked out. */
  lemma IdentityFailureIffAllLocked(s: State, now: Time, lockedRuns: set<Uuid>, lockedUsers: set<Uuid>, outcome: ClaimOutcome, after: State)
    requires Inv(s) && Claims(s, now, lockedRuns, lockedUsers, outcome, after)
    ensures outcome.NoIdentity? <==>
      && |RunningIds(Reap(s, now))| < CONCURRENCY_LIMIT
      && Claimable(Reap(s, now), lockedRuns) != {}
      && FreeIdentities(Reap(s, now), {}) <= lockedUsers
  {
  }

  /** With three identities and fewer of them locked than the pool has to spare, a
      claim never fails for want of one. */
  lemma PoolOfThreeNeverRunsOut(s: State, now: Time, lockedRuns: set<Uuid>, lockedUsers: set<Uuid>, outcome: ClaimOutcome, after: State)
    requires Inv(s) && Claims(s, now, lockedRuns, lockedUsers, outcome, after)
    requires |s.pool| >= CONCURRENCY_LIMIT
    requires |lockedUsers * FreeIdentities(Reap(s, now), {})| < |s.pool| - |RunningIds(Reap(s, now))|
      || lockedUsers * FreeIdentities(Reap(s, now), {}) == {}
    ensures !outcome.NoIdentity?
  {
    var reaped := Reap(s, now);
    FinishingKeepsInv(s, Abandoned(s, now), Failed, now);
    IdentityFailureIffAllLocked(s, now, lockedRuns, lockedUsers, outcome, after);
    CheckedOutCountIsRunningCount(reaped);
    assert reaped.pool.Keys == s.pool.Keys;
    var free := FreeIdentities(reaped, {});
    assert free <= lockedUsers ==> lockedUsers * free == free;
  }

  lemma NothingAbandonedNothingReaped(s: State, now: Time)
    requires Abandoned(s, now) == {}
    ensures Reap(s, now) == s
  {
  }

  /** A deployment just started: identities provisioned, one application created. */
  function Started(username: string, users: seq<Uuid>, app: ManagedApp, ids: (Uuid, Uuid), now: Time): seq<Event> {
    [Provision(username, users), Change(CreateApp(app), false, [ids], now)]
  }

  lemma StartedState(env: Env, username: string, users: seq<Uuid>, app: ManagedApp, ids: (Uuid, Uuid), now: Time)
    requires FreshUsers(map[], users) && ids.0 != ids.1
    ensures Exec(env, EMPTY, Started(username, users, app, ids, now))
         == State([app], map[ids.0 := NewRun(env, ids.0, app, None, FromShauth, now), ids.1 := NewRun(env, ids.1, app, None, FromApp, now)],
                  ProvisionFirst(map[], username, users, |SLOTS|))
  {
    var e, f: Event := Provision(username, users), Change(CreateApp(app), false, [ids], now);
    assert [e, f][..1] == [e] && [e][..0] == [];
    assert Exec(env, EMPTY, []) == EMPTY;
    assert Exec(env, EMPTY, [e]) == EMPTY.(pool := ProvisionFirst(map[], username, users, |SLOTS|));
    LoneAppQueuesTwoChecks(env, map[], app, ids, now);
    assert InsertBySlug([], app) == [app];
  }

  /** The failure the comment in the code rules out is reachable all the same: in a
      deployment just started, with its three identities free, a claim answers that no
      identity is available while another transaction holds their rows, as provisioning does. */
  lemma LockedPoolRunsOut(env: Env, username: string, users: seq<Uuid>, app: ManagedApp, ids: (Uuid, Uuid), now: Time)
    requires FreshUsers(map[], users) && ids.0 != ids.1
    ensures var s := Exec(env, EMPTY, Started(username, users, app, ids, now));
      && |s.pool| >= CONCURRENCY_LIMIT && FreeIdentities(s, {}) == s.pool.Keys
      && Claims(s, now, {}, s.pool.Keys, NoIdentity, s)
  {
    var s := Exec(env, EMPTY, Started(username, users, app, ids, now));
    StartedState(env, username, users, app, ids, now);
    ProvisionedPoolHoldsThree(map[], username, users);
    ProvisioningKeepsCheckouts(map[], username, users, |SLOTS|);
    assert RunningIds(s) == {} && ids.0 in QueuedIds(s);
    NothingAbandonedNothingReaped(s, now);
    assert ids.0 in Claimable(s, {}) by { assert BusyApps(s) == {}; }
    assert FreeIdentities(s, s.pool.Keys) == {};
  }

  // ---------------------------------------------------------------- draining

  /** With nothing running, something queued, an identity, and no row locked, a claim succeeds. */
  lemma IdleQueueIsClaimed(s: State, now: Time, outcome: ClaimOutcome, after: State)
    requires Inv(s) && RunningIds(Reap(s, now)) == {} && QueuedIds(s) != {} && |s.pool| > 0
    requires Claims(s, now, {}, {}, outcome, after)
    ensures outcome.Claimed?
  {
    var reaped := Reap(s, now);
    FinishingKeepsInv(s, Abandoned(s, now), Failed, now);
    assert |FreeIdentities(reaped, {})| > 0 by {
      CheckedOutCountIsRunningCount(reaped);
      assert reaped.pool.Keys == s.pool.Keys;
    }
  }

  /** Work left: a queued run still has to be claimed and then ended. */
  function Work(s: State): nat { 2 * |QueuedIds(s)| + |RunningIds(s)| }

  predicate IsWork(e: Event) { e.Claim? || e.CompleteRun? || e.Expire? }

  lemma EndingReducesWork(s: State, ids: set<Uuid>, status: Status, now: Time)
    requires Inv(s) && ids <= RunningIds(s) && (status == Passed || status == Failed)
    ensures Work(FinishAll(s, ids, status, now)) == Work(s) - |ids|
    ensures ids == {} ==> FinishAll(s, ids, status, now) == s
  {
    FinishingKeepsInv(s, ids, status, now);
    SubsetIsNoLarger(ids, RunningIds(s));
    if ids == {} {
      var t := FinishAll(s, ids, status, now);
      assert t.runs == s.runs && t.pool == s.pool;
    }
  }

  lemma ReapingUsesWork(s: State, now: Time)
    requires Inv(s)
    ensures Inv(Reap(s, now)) && (Reap(s, now) == s || Work(Reap(s, now)) < Work(s))
  {
    FinishingKeepsInv(s, Abandoned(s, now), Failed, now);
    EndingReducesWork(s, Abandoned(s, now), Failed, now);
    if Abandoned(s, now) != {} {
      assert |Abandoned(s, now)| > 0;
    }
  }

  lemma LeasingUsesWork(s: State, run: Uuid, user: Uuid, now: Time)
    requires run in QueuedIds(s) && user in s.pool
    ensures Work(Lease(s, run, user, now)) == Work(s) - 1
  {
    var after := Lease(s, run, user, now);
    assert QueuedIds(after) == QueuedIds(s) - {run};
    assert RunningIds(after) == RunningIds(s) + {run} && run !in RunningIds(s);
  }

  lemma ClaimUsesWork(env: Env, s: State, e: Event)
    requires Inv(s) && e.Claim?
    ensures Step(env, s, e) == s || Work(Step(env, s, e)) < Work(s)
  {
    ReapingUsesWork(s, e.now);
    var reaped, after := Reap(s, e.now), Step(env, s, e);
    if after != s && e.outcome.Claimed? {
      LeasingUsesWork(reaped, e.outcome.run, e.outcome.user, e.now);
    }
  }

  /** Each work step either changes nothing or uses some work up. */
  lemma WorkStepsUseWork(env: Env, s: State, e: Event)
    requires Inv(s) && IsWork(e)
    ensures Step(env, s, e) == s || Work(Step(env, s, e)) < Work(s)
  {
    match e
    case Claim(_, _, _, _) => ClaimUsesWork(env, s, e);
    case CompleteRun(run, passed, now) =>
      if run in RunningIds(s) { EndingReducesWork(s, {run}, if passed then Passed else Failed, now); }
    case Expire(now) => ReapingUsesWork(s, now);
  }

  lemma QueuedCanBeClaimed(env: Env, s: State) returns (e: Event)
    requires Inv(s) && |s.pool| > 0 && RunningIds(s) == {} && QueuedIds(s) != {}
    ensures e.Claim? && Step(env, s, e) != s
  {
    NothingAbandonedNothingReaped(s, 0);
    var outcome, after := ClaimAlwaysAnswers(s, 0, {}, {});
    IdleQueueIsClaimed(s, 0, outcome, after);
    e := Claim(0, {}, {}, outcome);
    assert Step(env, s, e) == after;
    assert after.runs[outcome.run].status == Running && s.runs[outcome.run].status == Queued;
  }

  /** While any work is left, some work step takes effect. */
  lemma WorkLeftMeansStepLeft(env: Env, s: State) returns (e: Event)
    requires Inv(s) && |s.pool| > 0 && Work(s) > 0
    ensures IsWork(e) && Step(env, s, e) != s
  {
    if RunningIds(s) != {} {
      var run :| run in RunningIds(s);
      e := CompleteRun(run, true, 0);
    } else {
      e := QueuedCanBeClaimed(env, s);
    }
  }

  ghost predicate AllEffective(env: Env, s: State, events: seq<Event>) {
    forall i :: 0 <= i < |events| ==> IsWork(events[i]) && Exec(env, s, events[..i + 1]) != Exec(env, s, events[..i])
  }

  lemma EffectivePrefix(env: Env, s: State, events: seq<Event>, n: nat)
    requires AllEffective(env, s, events) && n <= |events|
    ensures AllEffective(env, s, events[..n])
  {
    forall i | 0 <= i < n
      ensures IsWork(events[..n][i]) && Exec(env, s, events[..n][..i + 1]) != Exec(env, s, events[..n][..i])
    {
      assert events[..n][..i + 1] == events[..i + 1] && events[..n][..i] == events[..i];
    }
  }

  /** Without new enqueues the queue drains: a series of effective claims, completions
      and expiries is no longer than the work it started with. */
  lemma {:induction false} SeriesIsBoundedByWork(env: Env, s: State, events: seq<Event>)
    requires Inv(s) && AllEffective(env, s, events)
    ensures Inv(Exec(env, s, events))
    ensures |events| + Work(Exec(env, s, events)) <= Work(s)
    decreases |events|
  {
    if events != [] {
      var n := |events| - 1;
      EffectivePrefix(env, s, events, n);
      SeriesIsBoundedByWork(env, s, events[..n]);
      assert events[..n + 1] == events;
      StepKeepsInv(env, Exec(env, s, events[..n]), events[n]);
      WorkStepsUseWork(env, Exec(env, s, events[..n]), events[n]);
    }
  }

  /** A series that can take no further effective step has emptied the queue. */
  lemma ExhaustedSeriesDrainedQueue(env: Env, s: State, events: seq<Event>)
    requires Inv(s) && |s.pool| > 0 && AllEffective(env, s, events)
    requires forall e :: IsWork(e) ==> Step(env, Exec(env, s, events), e) == Exec(env, s, events)
    ensures QueuedIds(Exec(env, s, events)) == {} && RunningIds(Exec(env, s, events)) == {}
  {
    SeriesIsBoundedByWork(env, s, events);
    var last := Exec(env, s, events);
    WorkKeepsPool(env, s, events);
    if Work(last) > 0 {
      var e := WorkLeftMeansStepLeft(env, last);
      assert false;
    }
  }

  lemma {:induction false} WorkKeepsPool(env: Env, s: State, events: seq<Event>)
    requires AllEffective(env, s, events)
    ensures Exec(env, s, events).pool.Keys == s.pool.Keys
    decreases |events|
  {
    if events != [] {
      var n := |events| - 1;
      EffectivePrefix(env, s, events, n);
      WorkKeepsPool(env, s, events[..n]);
      assert IsWork(events[n]);
    }
  }
}
