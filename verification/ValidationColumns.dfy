/** What the queue's transactions do, said in the columns of the tables. */
module ValidationColumns {
  import opened Common
  import opened Catalog
  import opened ValidationQueue
  import opened ValidationExclusion

  // ---------------------------------------------------------------- leases

  /** Running for more than half an hour. */
  predicate Overdue(run: Run, now: Time) {
    run.status == Running && run.startedAt.Some? && run.startedAt.value + 30 * MINUTE < now
  }

  /** Running, and for no more than half an hour. */
  predicate Live(run: Run, now: Time) {
    run.status == Running && !Overdue(run, now)
  }

  /** The run an identity is checked out to is overdue. */
  predicate HeldOverdue(s: State, u: Uuid, now: Time)
    requires u in s.pool
  {
    var run := s.pool[u].checkedOut;
    run.Some? && run.value in s.runs && Overdue(s.runs[run.value], now)
  }

  /** An overdue run fails now. */
  function RunAfter(run: Run, now: Time): Run {
    if Overdue(run, now) then run.(status := Failed, completedAt := Some(now), leaseExpiresAt := None) else run
  }

  /** The identity of an overdue run is free again. */
  function IdentityAfter(s: State, u: Uuid, now: Time): Identity
    requires u in s.pool
  {
    if HeldOverdue(s, u, now) then s.pool[u].(checkedOut := None) else s.pool[u]
  }

  /** Overdue runs fail now and their identities are free again; nothing else changes. */
  ghost predicate Expires(s: State, t: State, now: Time) {
    && t.catalog == s.catalog && t.runs.Keys == s.runs.Keys && t.pool.Keys == s.pool.Keys
    && (forall id :: id in s.runs ==> t.runs[id] == RunAfter(s.runs[id], now))
    && (forall u :: u in s.pool ==> t.pool[u] == IdentityAfter(s, u, now))
  }

  lemma AbandonedIsOverdue(s: State, now: Time)
    requires Inv(s)
    ensures forall id :: id in Abandoned(s, now) <==> id in s.runs && Overdue(s.runs[id], now)
  {
    forall id | id in s.runs
      ensures id in Abandoned(s, now) <==> Overdue(s.runs[id], now)
    {
      assert RowOk(id, s.runs[id]);
    }
  }

  lemma ReapExpires(s: State, now: Time)
    requires Inv(s)
    ensures Expires(s, Reap(s, now), now)
    ensures forall id, u :: id in s.runs && Overdue(s.runs[id], now) ==> !HolderOf(Reap(s, now).pool, u, id)
  {
    AbandonedIsOverdue(s, now);
    FinishingKeepsInv(s, Abandoned(s, now), Failed, now);
  }

  // ---------------------------------------------------------------- completing

  /** One running check passes or fails now and its identity is free again. */
  ghost predicate Completes(s: State, t: State, run: Uuid, passed: bool, now: Time) {
    && t.catalog == s.catalog && t.runs.Keys == s.runs.Keys && t.pool.Keys == s.pool.Keys
    && run in s.runs && s.runs[run].status == Running
    && t.runs[run] == s.runs[run].(status := if passed then Passed else Failed, completedAt := Some(now), leaseExpiresAt := None)
    && (forall id :: id in s.runs && id != run ==> t.runs[id] == s.runs[id])
    && (forall u :: u in s.pool ==> t.pool[u] == if s.pool[u].checkedOut == Some(run) then s.pool[u].(checkedOut := None) else s.pool[u])
  }

  lemma CompleteCompletes(s: State, run: Uuid, passed: bool, now: Time)
    ensures var t := Complete(s, run, passed, now);
      if run in s.runs && s.runs[run].status == Running then Completes(s, t, run, passed, now) else t == s
  {
  }

  // ---------------------------------------------------------------- claiming

  /** A live check has this application as its target or as its witness. */
  ghost predicate InUse(s: State, app: Uuid, now: Time) {
    exists id :: id in s.runs && Live(s.runs[id], now) && Occupies(s.runs[id], app)
  }

  predicate Occupies(run: Run, app: Uuid) {
    run.target.appId == app || (run.peer.Some? && run.peer.value.appId == app)
  }

  /** Queued, not locked by others, and neither application in use. */
  ghost predicate Takeable(s: State, id: Uuid, locked: set<Uuid>, now: Time) {
    && id in s.runs && s.runs[id].status == Queued && id !in locked
    && !InUse(s, s.runs[id].target.appId, now)
    && (s.runs[id].peer.Some? ==> !InUse(s, s.runs[id].peer.value.appId, now))
  }

  /** Not checked out, or to an overdue run, and not locked by others. */
  predicate Spare(s: State, u: Uuid, locked: set<Uuid>, now: Time) {
    u in s.pool && u !in locked && (s.pool[u].checkedOut.None? || HeldOverdue(s, u, now))
  }

  function LiveIds(s: State, now: Time): set<Uuid> {
    set id | id in s.runs && Live(s.runs[id], now)
  }

  /** Asked for earlier, or at the same time with the smaller identifier. */
  predicate AskedEarlier(s: State, a: Uuid, b: Uuid)
    requires a in s.runs && b in s.runs
  {
    || s.runs[a].requestedAt < s.runs[b].requestedAt
    || (s.runs[a].requestedAt == s.runs[b].requestedAt && TextLess(a.text, b.text))
  }

  /** The run starts now under a lease of half an hour, with the identity checked out to it,
      and overdue runs expire. */
  ghost predicate Starts(s: State, t: State, run: Uuid, user: Uuid, now: Time) {
    && t.catalog == s.catalog && t.runs.Keys == s.runs.Keys && t.pool.Keys == s.pool.Keys && run in s.runs && user in s.pool
    && t.runs[run] == s.runs[run].(status := Running, startedAt := Some(now), leaseExpiresAt := Some(now + 30 * MINUTE))
    && t.pool[user] == s.pool[user].(checkedOut := Some(run))
    && (forall id :: id in s.runs && id != run ==> t.runs[id] == RunAfter(s.runs[id], now))
    && (forall u :: u in s.pool && u != user ==> t.pool[u] == IdentityAfter(s, u, now))
  }

  /** What a claim answers, decided by the tables, and what it does to them. */
  ghost predicate AnswersClaim(s: State, now: Time, lockedRuns: set<Uuid>, lockedUsers: set<Uuid>, outcome: ClaimOutcome, t: State) {
    var room := |LiveIds(s, now)| < 3;
    var work := exists id :: Takeable(s, id, lockedRuns, now);
    var spare := exists u :: Spare(s, u, lockedUsers, now);
    match outcome
    case AtCapacity => !room && Expires(s, t, now)
    case NothingClaimable => room && !work && Expires(s, t, now)
    case NoIdentity => room && work && !spare && t == s
    case Claimed(run, user) =>
      && room && Takeable(s, run, lockedRuns, now) && Spare(s, user, lockedUsers, now) && Starts(s, t, run, user, now)
      && forall id :: Takeable(s, id, lockedRuns, now) && id != run ==> AskedEarlier(s, run, id)
  }

  lemma ReapedRunning(s: State, r: State, now: Time)
    requires Expires(s, r, now)
    ensures RunningIds(r) == LiveIds(s, now) && QueuedIds(r) == QueuedIds(s)
  {
  }

  lemma ReapedClaimable(s: State, r: State, locked: set<Uuid>, id: Uuid, now: Time)
    requires Expires(s, r, now)
    ensures id in Claimable(r, locked) <==> Takeable(s, id, locked, now)
  {
    ReapedRunning(s, r, now);
    if id in QueuedIds(s) {
      var run := s.runs[id];
      BusyIsInUse(s, r, run.target.appId, now);
      assert run.target.appId in AppsOf(run);
      if run.peer.Some? {
        BusyIsInUse(s, r, run.peer.value.appId, now);
        assert run.peer.value.appId in AppsOf(run);
      }
    }
  }

  lemma ReapedFree(s: State, r: State, locked: set<Uuid>, now: Time)
    requires Expires(s, r, now)
    ensures forall u :: u in FreeIdentities(r, locked) <==> Spare(s, u, locked, now)
  {
  }

  lemma BusyIsInUse(s: State, r: State, app: Uuid, now: Time)
    requires Expires(s, r, now) && RunningIds(r) == LiveIds(s, now)
    ensures app in BusyApps(r) <==> InUse(s, app, now)
  {
    if app in BusyApps(r) {
      var id :| id in RunningIds(r) && app in AppsOf(r.runs[id]);
      assert Live(s.runs[id], now) && Occupies(s.runs[id], app);
    }
    if InUse(s, app, now) {
      var id :| id in s.runs && Live(s.runs[id], now) && Occupies(s.runs[id], app);
      assert id in RunningIds(r) && app in AppsOf(r.runs[id]);
    }
  }

  /** Which answer a claim gives, and what it commits, in every case. */
  lemma ClaimAnswersInColumns(s: State, now: Time, lockedRuns: set<Uuid>, lockedUsers: set<Uuid>, outcome: ClaimOutcome, t: State)
    requires Inv(s) && Claims(s, now, lockedRuns, lockedUsers, outcome, t)
    ensures AnswersClaim(s, now, lockedRuns, lockedUsers, outcome, t)
  {
    var r := Reap(s, now);
    ReapExpires(s, now);
    ReapedRunning(s, r, now);
    ReapedFree(s, r, lockedUsers, now);
    forall id
      ensures id in Claimable(r, lockedRuns) <==> Takeable(s, id, lockedRuns, now)
    {
      ReapedClaimable(s, r, lockedRuns, id, now);
    }
    if outcome.Claimed? {
      LeasingStarts(s, Reap(s, now), outcome.run, outcome.user, now);
      OldestAskedFirst(s, Reap(s, now), Claimable(Reap(s, now), lockedRuns), outcome.run, now);
    }
  }

  lemma LeasingStarts(s: State, r: State, run: Uuid, user: Uuid, now: Time)
    requires Expires(s, r, now) && run in s.runs && s.runs[run].status == Queued && user in s.pool
    ensures Starts(s, Lease(r, run, user, now), run, user, now)
  {
  }

  lemma OldestAskedFirst(s: State, r: State, ids: set<Uuid>, run: Uuid, now: Time)
    requires RowsOk(s.runs) && Expires(s, r, now) && ids <= s.runs.Keys && IsOldest(r.runs, ids, run)
    ensures forall id :: id in ids && id != run ==> AskedEarlier(s, run, id)
  {
    forall id | id in ids && id != run
      ensures AskedEarlier(s, run, id)
    {
      assert RowOk(id, s.runs[id]) && RowOk(run, s.runs[run]);
      assert Before(r.runs[run], r.runs[id]);
    }
  }

  // ---------------------------------------------------------------- the invariant

  /** In any state a history reaches, at most three checks run; two running checks have no
      application in common, as target or as witness; and each has exactly one identity. */
  lemma RunningChecksShareNothing(env: Env, events: seq<Event>, a: Uuid, b: Uuid, app: Uuid)
    ensures var s := Exec(env, EMPTY, events);
      && |(set id | id in s.runs && s.runs[id].status == Running)| <= 3
      && (a in s.runs && b in s.runs && a != b && s.runs[a].status == s.runs[b].status == Running ==>
            !(Occupies(s.runs[a], app) && Occupies(s.runs[b], app)))
      && (a in s.runs && s.runs[a].status == Running ==>
            && (exists u :: u in s.pool && s.pool[u].checkedOut == Some(a))
            && (s.runs[a].peer.Some? ==> s.runs[a].peer.value.appId != s.runs[a].target.appId))
      && (forall u, v :: u in s.pool && v in s.pool && s.pool[u].checkedOut.Some? && s.pool[u].checkedOut == s.pool[v].checkedOut ==> u == v)
      && (forall u :: u in s.pool && s.pool[u].checkedOut.Some? ==>
            s.pool[u].checkedOut.value in s.runs && s.runs[s.pool[u].checkedOut.value].status == Running)
  {
    EveryReachableStateIsExclusive(env, events);
    var s := Exec(env, EMPTY, events);
    assert RunningIds(s) == set id | id in s.runs && s.runs[id].status == Running;
    if a in s.runs && b in s.runs && Occupies(s.runs[a], app) && Occupies(s.runs[b], app) {
      assert app in AppsOf(s.runs[a]) * AppsOf(s.runs[b]);
      assert ShareApp(s.runs[a], s.runs[b]);
    }
    if a in RunningIds(s) {
      assert RowOk(a, s.runs[a]);
      var u :| HolderOf(s.pool, u, a);
    }
    forall u | u in s.pool && s.pool[u].checkedOut.Some?
      ensures HolderOf(s.pool, u, s.pool[u].checkedOut.value)
    {
    }
  }

  // ---------------------------------------------------------------- queueing

  /** A check of this contract is waiting or under way. */
  ghost predicate Covered(runs: map<Uuid, Run>, appId: Uuid, direction: Direction, hash: string) {
    exists id :: id in runs && IsCheck(runs[id], appId, direction, hash) && (runs[id].status == Queued || runs[id].status == Running)
  }

  predicate IsCheck(run: Run, appId: Uuid, direction: Direction, hash: string) {
    run.target.appId == appId && run.direction == direction && run.hash == hash
  }

  /** A queued check of the application and direction for another contract. */
  predicate Outdated(run: Run, appId: Uuid, direction: Direction, hash: string) {
    run.status == Queued && run.target.appId == appId && run.direction == direction && run.hash != hash
  }

  /** A check asked for now, of this application with this witness. */
  predicate IsNewCheck(run: Run, id: Uuid, app: ManagedApp, peer: Option<ManagedApp>, direction: Direction, hash: string, now: Time) {
    && run.id == id && run.direction == direction && run.hash == hash && run.status == Queued && run.requestedAt == now
    && run.startedAt.None? && run.leaseExpiresAt.None? && run.completedAt.None?
    && CopiesApp(run.target, app)
    && (run.peer.Some? <==> peer.Some?) && (peer.Some? ==> CopiesApp(run.peer.value, peer.value))
  }

  /** One direction: outdated queued checks go, and a new check comes exactly when none of
      this contract is waiting or under way; no other row changes. */
  lemma EnqueueInColumns(env: Env, runs: map<Uuid, Run>, app: ManagedApp, peer: Option<ManagedApp>, direction: Direction, id: Uuid, now: Time)
    requires id !in runs
    ensures var after, hash := EnqueueDirection(env, runs, app, peer, direction, id, now), ContractHash(env, app, peer);
      && (forall x :: x in runs ==> (x in after <==> !Outdated(runs[x], app.id, direction, hash)))
      && (forall x :: x in runs && x in after ==> after[x] == runs[x])
      && (forall x :: x in after && x !in runs ==> x == id)
      && (id in after <==> !Covered(runs, app.id, direction, hash))
      && (id in after ==> IsNewCheck(after[id], id, app, peer, direction, hash, now))
  {
    var hash := ContractHash(env, app, peer);
    var kept := runs - Superseded(runs, app.id, direction, hash);
    var pending := PendingFor(kept, app.id, direction, hash);
    if Covered(runs, app.id, direction, hash) {
      var x :| x in runs && IsCheck(runs[x], app.id, direction, hash) && (runs[x].status == Queued || runs[x].status == Running);
      assert x in kept && x in pending;
    }
    if pending != {} {
      var x :| x in pending;
      assert IsCheck(runs[x], app.id, direction, hash);
    }
  }

  /** A request by identifier, or else by slug, touches only the application it names; one
      with neither touches them all. */
  lemma RequestSelects(ref: ManagedAppRef, app: ManagedApp)
    ensures ref.Selects(app) <==>
      || (ref.id.text != "" && app.id.text == ref.id.text)
      || (ref.id.text == "" && (ref.slug == "" || app.slug == ref.slug))
  {
  }
}
