/** A claim, statement by statement. */
module ValidationClaimSteps {
  import opened Common
  import opened Catalog
  import opened ValidationQueue
  import opened ValidationExclusion

  // Other transactions commit between the statements; the advisory lock together with the row
  // locks still makes the result of the claim hold.

  /** How far one claiming transaction is. `expired` are the runs it has failed and not yet
      committed; it holds the row locks of those, of the run it picked and of the identity
      it took. */
  datatype Claiming =
    | Waiting
    | Locked(now: Time)
    | Reaped(now: Time, expired: set<Uuid>)
    | Counted(now: Time, expired: set<Uuid>)
    | Picked(now: Time, expired: set<Uuid>, run: Uuid)
    | Taken(now: Time, expired: set<Uuid>, run: Uuid, user: Uuid)

  /** The committed tables, the claims under way, and who holds the claim lock. */
  datatype World = World(db: State, claims: map<nat, Claiming>, holder: Option<nat>)

  datatype ClaimStep =
    | Begin(k: nat)
    | Acquire(k: nat, now: Time)
    | ReapRows(k: nat)
    | CountRunning(k: nat)
    | Pick(k: nat, run: Uuid, skipped: set<Uuid>)
    | PickNothing(k: nat, skipped: set<Uuid>)
    | TakeIdentity(k: nat, user: Uuid, skipped: set<Uuid>)
    | Commit(k: nat)
    | Abort(k: nat)
    | Elsewhere(e: Event)

  function Expired(c: Claiming): set<Uuid> {
    if c.Waiting? || c.Locked? then {} else c.expired
  }

  /** The committed tables as this transaction sees them, with its own updates. */
  function View(db: State, c: Claiming): State
    requires !c.Waiting?
  {
    FinishAll(db, Expired(c), Failed, c.now)
  }

  function LockedRuns(c: Claiming): set<Uuid> {
    Expired(c) + if c.Picked? || c.Taken? then {c.run} else {}
  }

  function LockedUsers(c: Claiming): set<Uuid> {
    if c.Taken? then {c.user} else {}
  }

  /** Another transaction may commit only what touches no row a claim has locked; it waits otherwise. */
  ghost predicate LeavesAlone(db: State, after: State, c: Claiming) {
    && (forall id :: id in LockedRuns(c) ==> id in db.runs && id in after.runs && after.runs[id] == db.runs[id])
    && (forall u :: u in LockedUsers(c) ==> u in db.pool && u in after.pool && after.pool[u] == db.pool[u])
  }

  ghost predicate Enabled(env: Env, w: World, e: ClaimStep) {
    match e
    case Begin(k) => k !in w.claims
    case Acquire(k, _) => k in w.claims && w.claims[k].Waiting? && w.holder.None?
    case ReapRows(k) => k in w.claims && w.claims[k].Locked?
    case CountRunning(k) => k in w.claims && w.claims[k].Reaped?
    case Pick(k, run, skipped) =>
      && k in w.claims && w.claims[k].Counted?
      && var view := View(w.db, w.claims[k]); IsOldest(view.runs, Claimable(view, skipped), run)
    case PickNothing(k, skipped) =>
      k in w.claims && w.claims[k].Counted? && Claimable(View(w.db, w.claims[k]), skipped) == {}
    case TakeIdentity(k, user, skipped) =>
      k in w.claims && w.claims[k].Picked? && user in FreeIdentities(View(w.db, w.claims[k]), skipped)
    case Commit(k) => k in w.claims && w.claims[k].Taken?
    case Abort(k) => k in w.claims
    case Elsewhere(e) =>
      !e.Claim? && forall k :: k in w.claims ==> LeavesAlone(w.db, Step(env, w.db, e), w.claims[k])
  }

  function Move(w: World, k: nat, c: Claiming): World { w.(claims := w.claims[k := c]) }

  /** The transaction ends with these tables committed and drops its lock. */
  function End(w: World, k: nat, db: State): World {
    World(db, w.claims - {k}, if w.holder == Some(k) then None else w.holder)
  }

  ghost function Advance(env: Env, w: World, e: ClaimStep): World {
    if !Enabled(env, w, e) then w
    else match e
      case Begin(k) => Move(w, k, Waiting)
      case Acquire(k, now) => Move(w, k, Locked(now)).(holder := Some(k))
      case ReapRows(k) => Move(w, k, Reaped(w.claims[k].now, Abandoned(w.db, w.claims[k].now)))
      case CountRunning(k) =>
        var c, view := w.claims[k], View(w.db, w.claims[k]);
        if |RunningIds(view)| >= CONCURRENCY_LIMIT then End(w, k, view) else Move(w, k, Counted(c.now, c.expired))
      case Pick(k, run, _) => Move(w, k, Picked(w.claims[k].now, w.claims[k].expired, run))
      case PickNothing(k, _) => End(w, k, View(w.db, w.claims[k]))
      case TakeIdentity(k, user, _) => Move(w, k, Taken(w.claims[k].now, w.claims[k].expired, w.claims[k].run, user))
      case Commit(k) =>
        var c, view := w.claims[k], View(w.db, w.claims[k]);
        if c.run in view.runs && c.user in view.pool then End(w, k, Lease(view, c.run, c.user, c.now)) else w
      case Abort(k) => End(w, k, w.db)
      case Elsewhere(e) => w.(db := Step(env, w.db, e))
  }

  ghost function Run(env: Env, w: World, events: seq<ClaimStep>): World {
    if events == [] then w
    else Advance(env, Run(env, w, events[..|events| - 1]), events[|events| - 1])
  }

  // ---------------------------------------------------------------- what a claim may rely on

  /** What the transaction has established by its stage still holds of what it sees now. */
  ghost predicate Relies(db: State, c: Claiming) {
    && Expired(c) <= RunningIds(db)
    && (c.Counted? || c.Picked? || c.Taken? ==> |RunningIds(View(db, c))| < CONCURRENCY_LIMIT)
    && (c.Picked? || c.Taken? ==>
          var view := View(db, c); c.run in QueuedIds(view) && AppsOf(view.runs[c.run]) !! BusyApps(view))
    && (c.Taken? ==> c.user in FreeIdentities(View(db, c), {}))
  }

  ghost predicate WorldInv(w: World) {
    && Inv(w.db)
    && (forall k :: k in w.claims && !w.claims[k].Waiting? ==> w.holder == Some(k))
    && (forall k :: k in w.claims && !w.claims[k].Waiting? ==> Relies(w.db, w.claims[k]))
  }

  // ---------------------------------------------------------------- other transactions

  /** Only a claim starts a check or checks an identity out. */
  ghost predicate StartsNothing(before: State, after: State) {
    && (forall id :: id in RunningIds(after) ==> id in RunningIds(before) && after.runs[id] == before.runs[id])
    && (forall u :: u in after.pool && after.pool[u].checkedOut.Some? ==> u in before.pool && after.pool[u] == before.pool[u])
  }

  lemma RequeueStartsNothing(env: Env, s: State, ref: ManagedAppRef, ids: seq<(Uuid, Uuid)>, now: Time)
    requires Inv(s)
    ensures StartsNothing(s, Requeued(env, s, ref, ids, now))
  {
    if FreshIds(s.runs, s.catalog, ids) {
      EnqueueKeepsRunsInv(env, s.runs, s.catalog, ref, |s.catalog|, ids, now);
    }
  }

  lemma ChangeStartsNothing(env: Env, s: State, change: Change, cascade: bool, ids: seq<(Uuid, Uuid)>, now: Time)
    requires Inv(s)
    ensures StartsNothing(s, ChangeCatalog(env, s, change, cascade, ids, now))
  {
    if Changed(s.catalog, change).Some? {
      CascadeKeepsInv(s, change, cascade);
      var changed := AfterCascade(s, change, cascade).(catalog := Changed(s.catalog, change).value);
      assert Inv(changed);
      assert StartsNothing(s, changed);
      RequeueStartsNothing(env, changed, EVERY_APP, ids, now);
    }
  }

  lemma FinishingStartsNothing(s: State, ids: set<Uuid>, status: Status, now: Time)
    requires status == Passed || status == Failed
    ensures StartsNothing(s, FinishAll(s, ids, status, now))
  {
  }

  lemma OthersStartNothing(env: Env, s: State, e: Event)
    requires Inv(s) && !e.Claim?
    ensures StartsNothing(s, Step(env, s, e))
  {
    match e
    case Change(change, cascade, ids, now) => ChangeStartsNothing(env, s, change, cascade, ids, now);
    case Enqueue(ref, ids, now) => RequeueStartsNothing(env, s, ref, ids, now);
    case CompleteRun(run, passed, now) => FinishingStartsNothing(s, {run}, if passed then Passed else Failed, now);
    case Expire(now) => FinishingStartsNothing(s, Abandoned(s, now), Failed, now);
    case Provision(username, userIds) =>
      if FreshUsers(s.pool, userIds) {
        ProvisioningKeepsCheckouts(s.pool, username, userIds, |SLOTS|);
      }
  }

  lemma ViewStartsNothing(s: State, t: State, c: Claiming)
    requires StartsNothing(s, t) && LeavesAlone(s, t, c) && !c.Waiting? && Expired(c) <= RunningIds(s)
    ensures Expired(c) <= RunningIds(t)
    ensures RunningIds(View(t, c)) <= RunningIds(View(s, c))
    ensures forall id :: id in RunningIds(View(t, c)) ==> View(t, c).runs[id] == View(s, c).runs[id]
  {
  }

  lemma BusyShrinks(s: State, t: State)
    requires RunningIds(t) <= RunningIds(s) && forall id :: id in RunningIds(t) ==> t.runs[id] == s.runs[id]
    ensures BusyApps(t) <= BusyApps(s)
  {
  }

  lemma TakenStaysFree(s: State, t: State, c: Claiming)
    requires LeavesAlone(s, t, c) && c.Taken? && c.user in FreeIdentities(View(s, c), {})
    ensures c.user in FreeIdentities(View(t, c), {})
  {
  }

  lemma PickedStaysQueued(s: State, t: State, c: Claiming)
    requires LeavesAlone(s, t, c) && (c.Picked? || c.Taken?) && c.run in QueuedIds(View(s, c))
    ensures c.run in QueuedIds(View(t, c)) && View(t, c).runs[c.run] == View(s, c).runs[c.run]
  {
  }

  /** Whatever another transaction commits, a claim under way may still rely on what it established. */
  lemma OthersKeepReliance(s: State, t: State, c: Claiming)
    requires StartsNothing(s, t) && LeavesAlone(s, t, c) && !c.Waiting? && Relies(s, c)
    ensures Relies(t, c)
  {
    ViewStartsNothing(s, t, c);
    SubsetIsNoLarger(RunningIds(View(t, c)), RunningIds(View(s, c)));
    BusyShrinks(View(s, c), View(t, c));
    if c.Picked? || c.Taken? {
      PickedStaysQueued(s, t, c);
    }
    if c.Taken? {
      TakenStaysFree(s, t, c);
    }
  }

  // ---------------------------------------------------------------- the claim's own steps

  lemma EndingKeepsInv(w: World, k: nat, db: State)
    requires WorldInv(w) && k in w.claims && !w.claims[k].Waiting? && Inv(db)
    ensures WorldInv(End(w, k, db))
  {
  }

  lemma MovingKeepsInv(w: World, k: nat, c: Claiming)
    requires WorldInv(w) && k in w.claims && !w.claims[k].Waiting? && !c.Waiting? && Relies(w.db, c)
    ensures WorldInv(Move(w, k, c))
  {
  }

  lemma ViewKeepsInv(db: State, c: Claiming)
    requires Inv(db) && !c.Waiting? && Expired(c) <= RunningIds(db)
    ensures Inv(View(db, c))
  {
    FinishingKeepsInv(db, Expired(c), Failed, c.now);
  }

  /** The statements that only read and lock establish what the next ones rely on. */
  lemma ReadingEstablishes(env: Env, w: World, e: ClaimStep)
    requires Enabled(env, w, e) && (e.ReapRows? || e.Pick? || e.TakeIdentity?) && Relies(w.db, w.claims[e.k])
    ensures Relies(w.db, Advance(env, w, e).claims[e.k])
  {
  }

  lemma CountingKeepsInv(env: Env, w: World, k: nat)
    requires WorldInv(w) && Enabled(env, w, CountRunning(k))
    ensures WorldInv(Advance(env, w, CountRunning(k)))
  {
    var c := w.claims[k];
    assert Relies(w.db, c);
    ViewKeepsInv(w.db, c);
    if |RunningIds(View(w.db, c))| >= CONCURRENCY_LIMIT {
      EndingKeepsInv(w, k, View(w.db, c));
    } else {
      MovingKeepsInv(w, k, Counted(c.now, c.expired));
    }
  }

  lemma CommittingKeepsInv(env: Env, w: World, k: nat)
    requires WorldInv(w) && Enabled(env, w, Commit(k))
    ensures WorldInv(Advance(env, w, Commit(k)))
  {
    var c := w.claims[k];
    assert Relies(w.db, c);
    ViewKeepsInv(w.db, c);
    LeasingKeepsInv(View(w.db, c), c.run, c.user, c.now);
    EndingKeepsInv(w, k, Lease(View(w.db, c), c.run, c.user, c.now));
  }

  lemma OwnStepKeepsInv(env: Env, w: World, e: ClaimStep)
    requires WorldInv(w) && Enabled(env, w, e) && !e.Begin? && !e.Acquire? && !e.Abort? && !e.Elsewhere?
    ensures WorldInv(Advance(env, w, e))
  {
    if e.CountRunning? {
      CountingKeepsInv(env, w, e.k);
    } else if e.Commit? {
      CommittingKeepsInv(env, w, e.k);
    } else if e.PickNothing? {
      ViewKeepsInv(w.db, w.claims[e.k]);
      EndingKeepsInv(w, e.k, View(w.db, w.claims[e.k]));
    } else {
      ReadingEstablishes(env, w, e);
      MovingKeepsInv(w, e.k, Advance(env, w, e).claims[e.k]);
    }
  }

  lemma AdvanceKeepsInv(env: Env, w: World, e: ClaimStep)
    requires WorldInv(w)
    ensures WorldInv(Advance(env, w, e))
  {
    if Enabled(env, w, e) {
      if e.Elsewhere? {
        StepKeepsInv(env, w.db, e.e);
        OthersStartNothing(env, w.db, e.e);
        forall k | k in w.claims && !w.claims[k].Waiting?
          ensures Relies(Step(env, w.db, e.e), w.claims[k])
        {
          OthersKeepReliance(w.db, Step(env, w.db, e.e), w.claims[k]);
        }
      } else if e.Abort? {
        if !w.claims[e.k].Waiting? {
          EndingKeepsInv(w, e.k, w.db);
        }
      } else if !e.Begin? && !e.Acquire? {
        OwnStepKeepsInv(env, w, e);
      }
    }
  }

  /** In every interleaving of any number of claims, statement by statement, with every
      other transaction, the committed tables keep the concurrency bound, the exclusive use
      of applications and the pairing of identities with runs. */
  lemma {:induction false} EveryInterleavingKeepsInv(env: Env, w: World, events: seq<ClaimStep>)
    requires Inv(w.db) && w.claims == map[] && w.holder.None?
    ensures WorldInv(Run(env, w, events))
    decreases |events|
  {
    if events != [] {
      var n := |events| - 1;
      EveryInterleavingKeepsInv(env, w, events[..n]);
      AdvanceKeepsInv(env, Run(env, w, events[..n]), events[n]);
    }
  }

  /** The row locks alone would not do. Two claims that both look before either commits may
      pick the two directions of one application, the second skipping the first one's row. */
  lemma UnlockedClaimsCollide(s: State, first: Uuid, second: Uuid, u: Uuid, v: Uuid, now: Time)
    requires Inv(s) && RunningIds(s) == {} && QueuedIds(s) == {first, second} && first != second
    requires s.runs[first].target.appId == s.runs[second].target.appId && Before(s.runs[first], s.runs[second])
    requires u in FreeIdentities(s, {}) && v in FreeIdentities(s, {u})
    ensures IsOldest(s.runs, Claimable(s, {}), first) && IsOldest(s.runs, Claimable(s, {first}), second)
    ensures !Exclusive(Lease(Lease(s, first, u, now), second, v, now).runs)
  {
    assert BusyApps(s) == {};
    assert Claimable(s, {}) == {first, second} && Claimable(s, {first}) == {second};
    var after := Lease(Lease(s, first, u, now), second, v, now).runs;
    assert s.runs[first].target.appId in AppsOf(after[first]) * AppsOf(after[second]);
    assert ShareApp(after[first], after[second]);
  }

  // ---------------------------------------------------------------- one claim alone

  /** One claim that holds the lock, at a given stage, and nobody else. */
  function Alone(db: State, k: nat, c: Claiming): World { World(db, map[k := c], Some(k)) }

  /** The statements of a claim that hands out a check. */
  function WholeClaim(k: nat, now: Time, run: Uuid, user: Uuid, lockedRuns: set<Uuid>, lockedUsers: set<Uuid>): seq<ClaimStep> {
    [Begin(k), Acquire(k, now), ReapRows(k), CountRunning(k), Pick(k, run, lockedRuns), TakeIdentity(k, user, lockedUsers), Commit(k)]
  }

  lemma {:induction false} RunHead(env: Env, w: World, e: ClaimStep, rest: seq<ClaimStep>)
    ensures Run(env, w, [e] + rest) == Run(env, Advance(env, w, e), rest)
    decreases |rest|
  {
    if rest == [] {
      assert [e] + rest == [e] && [e][..0] == [];
      assert Run(env, w, []) == w;
    } else {
      var n := |rest| - 1;
      RunHead(env, w, e, rest[..n]);
      assert ([e] + rest)[..n + 1] == [e] + rest[..n];
    }
  }

  lemma ClaimBegins(env: Env, db: State, k: nat, now: Time)
    ensures Advance(env, Advance(env, World(db, map[], None), Begin(k)), Acquire(k, now)) == Alone(db, k, Locked(now))
    ensures Advance(env, Alone(db, k, Locked(now)), ReapRows(k)) == Alone(db, k, Reaped(now, Abandoned(db, now)))
  {
  }

  lemma ClaimCounts(env: Env, db: State, k: nat, now: Time, expired: set<Uuid>)
    requires |RunningIds(FinishAll(db, expired, Failed, now))| < 3
    ensures Advance(env, Alone(db, k, Reaped(now, expired)), CountRunning(k)) == Alone(db, k, Counted(now, expired))
  {
  }

  lemma ClaimPicks(env: Env, db: State, k: nat, now: Time, expired: set<Uuid>, run: Uuid, user: Uuid, lockedRuns: set<Uuid>, lockedUsers: set<Uuid>)
    requires var view := FinishAll(db, expired, Failed, now);
      IsOldest(view.runs, Claimable(view, lockedRuns), run) && user in FreeIdentities(view, lockedUsers)
    ensures Advance(env, Alone(db, k, Counted(now, expired)), Pick(k, run, lockedRuns)) == Alone(db, k, Picked(now, expired, run))
    ensures Advance(env, Alone(db, k, Picked(now, expired, run)), TakeIdentity(k, user, lockedUsers)) == Alone(db, k, Taken(now, expired, run, user))
  {
  }

  lemma ClaimCommits(env: Env, db: State, k: nat, now: Time, expired: set<Uuid>, run: Uuid, user: Uuid)
    requires var view := FinishAll(db, expired, Failed, now); run in view.runs && user in view.pool
    ensures Advance(env, Alone(db, k, Taken(now, expired, run, user)), Commit(k))
         == World(Lease(FinishAll(db, expired, Failed, now), run, user, now), map[], None)
  {
  }

  lemma RunThree(env: Env, w: World, a: ClaimStep, b: ClaimStep, c: ClaimStep, rest: seq<ClaimStep>)
    ensures Run(env, w, [a, b, c] + rest) == Run(env, Advance(env, Advance(env, Advance(env, w, a), b), c), rest)
  {
    RunHead(env, w, a, [b, c] + rest);
    RunHead(env, Advance(env, w, a), b, [c] + rest);
    RunHead(env, Advance(env, Advance(env, w, a), b), c, rest);
    assert [a] + ([b, c] + rest) == [a, b, c] + rest && [b] + ([c] + rest) == [b, c] + rest;
  }

  /** Left alone, the statements of a claim do what the claim as one transaction does. */
  lemma StatementsMakeTheClaim(env: Env, db: State, k: nat, now: Time, lockedRuns: set<Uuid>, lockedUsers: set<Uuid>, outcome: ClaimOutcome, after: State)
    requires Inv(db) && Claims(db, now, lockedRuns, lockedUsers, outcome, after) && outcome.Claimed?
    ensures Run(env, World(db, map[], None), WholeClaim(k, now, outcome.run, outcome.user, lockedRuns, lockedUsers)) == World(after, map[], None)
  {
    var run, user, expired := outcome.run, outcome.user, Abandoned(db, now);
    ClaimBegins(env, db, k, now);
    ClaimCounts(env, db, k, now, expired);
    ClaimPicks(env, db, k, now, expired, run, user, lockedRuns, lockedUsers);
    ClaimCommits(env, db, k, now, expired, run, user);
    WholeClaimRuns(env, db, k, now, expired, run, user, lockedRuns, lockedUsers, after);
  }

  lemma WholeClaimRuns(env: Env, db: State, k: nat, now: Time, expired: set<Uuid>, run: Uuid, user: Uuid, lockedRuns: set<Uuid>, lockedUsers: set<Uuid>, after: State)
    requires Advance(env, Advance(env, Advance(env, World(db, map[], None), Begin(k)), Acquire(k, now)), ReapRows(k)) == Alone(db, k, Reaped(now, expired))
    requires Advance(env, Alone(db, k, Reaped(now, expired)), CountRunning(k)) == Alone(db, k, Counted(now, expired))
    requires Advance(env, Alone(db, k, Counted(now, expired)), Pick(k, run, lockedRuns)) == Alone(db, k, Picked(now, expired, run))
    requires Advance(env, Alone(db, k, Picked(now, expired, run)), TakeIdentity(k, user, lockedUsers)) == Alone(db, k, Taken(now, expired, run, user))
    requires Advance(env, Alone(db, k, Taken(now, expired, run, user)), Commit(k)) == World(after, map[], None)
    ensures Run(env, World(db, map[], None), WholeClaim(k, now, run, user, lockedRuns, lockedUsers)) == World(after, map[], None)
  {
    var first, last := [Begin(k), Acquire(k, now), ReapRows(k)], [Commit(k)];
    var middle := [CountRunning(k), Pick(k, run, lockedRuns), TakeIdentity(k, user, lockedUsers)];
    RunThree(env, World(db, map[], None), Begin(k), Acquire(k, now), ReapRows(k), middle + last);
    RunThree(env, Alone(db, k, Reaped(now, expired)), middle[0], middle[1], middle[2], last);
    RunHead(env, Alone(db, k, Taken(now, expired, run, user)), Commit(k), []);
    assert [Commit(k)] + [] == last;
    assert WholeClaim(k, now, run, user, lockedRuns, lockedUsers) == first + (middle + last);
  }
}
