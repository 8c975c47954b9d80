/** The browser-check queue: its tables and what each committed transaction does to them. */
module ValidationQueue {
  import opened Common
  import opened Catalog

  const CONCURRENCY_LIMIT: nat := 3
  const LEASE_DURATION: Time := 30 * MINUTE

  datatype Direction = FromShauth | FromApp

  datatype Status = Queued | Running | Passed | Failed

  /** The eight columns a run copies from the target, and again from the witness. */
  datatype AppCopy = AppCopy(
    appId: Uuid, slug: string, name: string, clientID: string, launchURL: string,
    validationURL: string, signedOutURL: string, releaseRevision: string)

  datatype Run = Run(
    id: Uuid, target: AppCopy, peer: Option<AppCopy>, direction: Direction, hash: string,
    status: Status, requestedAt: Time, startedAt: Option<Time>, leaseExpiresAt: Option<Time>, completedAt: Option<Time>)

  /** One validation identity and the run it is checked out to. */
  datatype Identity = Identity(username: string, checkedOut: Option<Uuid>)

  /** managed_apps in slug order, app_validation_runs, and the validation users. */
  datatype State = State(catalog: seq<ManagedApp>, runs: map<Uuid, Run>, pool: map<Uuid, Identity>)

  // ---------------------------------------------------------------- reading

  function CopyOf(app: ManagedApp): AppCopy {
    AppCopy(app.id, app.slug, app.name, app.clientID, app.launchURL, app.validationURL, app.signedOutURL, app.releaseRevision)
  }

  function CopyOfPeer(peer: Option<ManagedApp>): Option<AppCopy> {
    if peer.Some? then Some(CopyOf(peer.value)) else None
  }

  /** The columns a check copies are those of the application. */
  predicate CopiesApp(copy: AppCopy, app: ManagedApp) {
    && copy.appId == app.id && copy.slug == app.slug && copy.name == app.name && copy.clientID == app.clientID
    && copy.launchURL == app.launchURL && copy.validationURL == app.validationURL && copy.signedOutURL == app.signedOutURL
    && copy.releaseRevision == app.releaseRevision
  }

  predicate Pending(run: Run) {
    run.status == Queued || run.status == Running
  }

  /** The applications a run occupies: its target and its witness. */
  function AppsOf(run: Run): set<Uuid> {
    {run.target.appId} + if run.peer.Some? then {run.peer.value.appId} else {}
  }

  function InStatus(runs: map<Uuid, Run>, status: Status): set<Uuid> {
    set id | id in runs && runs[id].status == status
  }

  function RunningIds(s: State): set<Uuid> { InStatus(s.runs, Running) }

  function QueuedIds(s: State): set<Uuid> { InStatus(s.runs, Queued) }

  function BusyApps(s: State): set<Uuid> {
    set id, app | id in RunningIds(s) && app in AppsOf(s.runs[id]) :: app
  }

  /** Identities not checked out and not locked by another transaction. */
  function FreeIdentities(s: State, locked: set<Uuid>): set<Uuid> {
    set u | u in s.pool && s.pool[u].checkedOut.None? && u !in locked
  }

  /** Queued runs whose applications are all idle, skipping rows another transaction holds. */
  function Claimable(s: State, locked: set<Uuid>): set<Uuid> {
    set id | id in QueuedIds(s) && AppsOf(s.runs[id]) !! BusyApps(s) && id !in locked
  }

  /** ORDER BY requested_at, id. */
  predicate Before(a: Run, b: Run) {
    a.requestedAt < b.requestedAt || (a.requestedAt == b.requestedAt && TextLess(a.id.text, b.id.text))
  }

  ghost predicate IsOldest(runs: map<Uuid, Run>, ids: set<Uuid>, id: Uuid)
    requires ids <= runs.Keys
  {
    id in ids && forall other :: other in ids && other != id ==> Before(runs[id], runs[other])
  }

  // ---------------------------------------------------------------- finishing and leasing

  function Finished(run: Run, status: Status, now: Time): Run {
    run.(status := status, completedAt := Some(now), leaseExpiresAt := None)
  }

  function Released(pool: map<Uuid, Identity>, ids: set<Uuid>): map<Uuid, Identity> {
    map u | u in pool ::
      if pool[u].checkedOut.Some? && pool[u].checkedOut.value in ids then pool[u].(checkedOut := None) else pool[u]
  }

  /** End the given runs with one status and give their identities back. */
  function FinishAll(s: State, ids: set<Uuid>, status: Status, now: Time): State {
    s.(runs := map id | id in s.runs :: if id in ids then Finished(s.runs[id], status, now) else s.runs[id],
       pool := Released(s.pool, ids))
  }

  function Abandoned(s: State, now: Time): set<Uuid> {
    set id | id in RunningIds(s) && s.runs[id].leaseExpiresAt.Some? && s.runs[id].leaseExpiresAt.value < now
  }

  /** ExpireAbandonedAppValidation, and the first statement of a claim. */
  function Reap(s: State, now: Time): State {
    FinishAll(s, Abandoned(s, now), Failed, now)
  }

  function Leased(run: Run, now: Time): Run {
    run.(status := Running, startedAt := Some(now), leaseExpiresAt := Some(now + LEASE_DURATION))
  }

  function Lease(s: State, run: Uuid, user: Uuid, now: Time): State
    requires run in s.runs && user in s.pool
  {
    s.(runs := s.runs[run := Leased(s.runs[run], now)],
       pool := s.pool[user := s.pool[user].(checkedOut := Some(run))])
  }

  datatype ClaimOutcome = AtCapacity | NothingClaimable | NoIdentity | Claimed(run: Uuid, user: Uuid)

  /** What ClaimAppValidation may answer and commit. The two locked sets are the rows
      its SKIP LOCKED clauses pass over; failing for want of an identity rolls back. */
  ghost predicate Claims(s: State, now: Time, lockedRuns: set<Uuid>, lockedUsers: set<Uuid>, outcome: ClaimOutcome, after: State) {
    var reaped := Reap(s, now);
    var ids := Claimable(reaped, lockedRuns);
    var free := FreeIdentities(reaped, lockedUsers);
    if |RunningIds(reaped)| >= CONCURRENCY_LIMIT then outcome == AtCapacity && after == reaped
    else if ids == {} then outcome == NothingClaimable && after == reaped
    else if free == {} then outcome == NoIdentity && after == s
    else
      && outcome.Claimed?
      && IsOldest(reaped.runs, ids, outcome.run) && outcome.user in free
      && after == Lease(reaped, outcome.run, outcome.user, now)
  }

  /** CompleteAppValidation: only a running run can be completed. */
  function Complete(s: State, run: Uuid, passed: bool, now: Time): State {
    if run in RunningIds(s) then FinishAll(s, {run}, if passed then Passed else Failed, now) else s
  }

  // ---------------------------------------------------------------- enqueueing

  function Superseded(runs: map<Uuid, Run>, appId: Uuid, direction: Direction, hash: string): set<Uuid> {
    set id | id in runs && runs[id].status == Queued && runs[id].target.appId == appId
          && runs[id].direction == direction && runs[id].hash != hash
  }

  function PendingFor(runs: map<Uuid, Run>, appId: Uuid, direction: Direction, hash: string): set<Uuid> {
    set id | id in runs && Pending(runs[id]) && runs[id].target.appId == appId
          && runs[id].direction == direction && runs[id].hash == hash
  }

  function NewRun(env: Env, id: Uuid, app: ManagedApp, peer: Option<ManagedApp>, direction: Direction, now: Time): Run {
    Run(id, CopyOf(app), CopyOfPeer(peer), direction, ContractHash(env, app, peer), Queued, now, None, None, None)
  }

  /** One direction of enqueueAppValidation: drop queued runs of another contract, then
      insert unless the partial unique index already holds this one. */
  function EnqueueDirection(env: Env, runs: map<Uuid, Run>, app: ManagedApp, peer: Option<ManagedApp>,
                            direction: Direction, id: Uuid, now: Time): map<Uuid, Run> {
    var hash := ContractHash(env, app, peer);
    var kept := runs - Superseded(runs, app.id, direction, hash);
    if PendingFor(kept, app.id, direction, hash) != {} then kept
    else kept[id := NewRun(env, id, app, peer, direction, now)]
  }

  function EnqueueApp(env: Env, runs: map<Uuid, Run>, app: ManagedApp, peer: Option<ManagedApp>,
                      ids: (Uuid, Uuid), now: Time): map<Uuid, Run> {
    EnqueueDirection(env, EnqueueDirection(env, runs, app, peer, FromShauth, ids.0, now), app, peer, FromApp, ids.1, now)
  }

  /** One app by identifier or slug, or every app when both are empty. */
  datatype ManagedAppRef = ManagedAppRef(id: Uuid, slug: string) {
    predicate All() { id.text == "" && slug == "" }
    predicate Matches(app: ManagedApp) { if id.text != "" then app.id == id else app.slug == slug }
    predicate Selects(app: ManagedApp) { All() || Matches(app) }
  }

  const EVERY_APP := ManagedAppRef(Uuid(""), "")

  /** Enqueue the first n selected applications of the catalog, in catalog order. */
  function EnqueueFirst(env: Env, runs: map<Uuid, Run>, apps: seq<ManagedApp>, ref: ManagedAppRef,
                        n: nat, ids: seq<(Uuid, Uuid)>, now: Time): map<Uuid, Run>
    requires n <= |apps| && |ids| == |apps|
  {
    if n == 0 then runs
    else
      var before := EnqueueFirst(env, runs, apps, ref, n - 1, ids, now);
      var app := apps[n - 1];
      if ref.Selects(app) then EnqueueApp(env, before, app, ValidationWitness(env, app, apps), ids[n - 1], now)
      else before
  }

  /** Random identifiers: distinct from each other and from every stored run. */
  ghost predicate FreshIds(runs: map<Uuid, Run>, apps: seq<ManagedApp>, ids: seq<(Uuid, Uuid)>) {
    && |ids| == |apps|
    && (forall i :: 0 <= i < |ids| ==> ids[i].0 !in runs && ids[i].1 !in runs && ids[i].0 != ids[i].1)
    && (forall i, j :: 0 <= i < j < |ids| ==> {ids[i].0, ids[i].1} !! {ids[j].0, ids[j].1})
  }

  ghost function Requeued(env: Env, s: State, ref: ManagedAppRef, ids: seq<(Uuid, Uuid)>, now: Time): State {
    if FreshIds(s.runs, s.catalog, ids)
    then s.(runs := EnqueueFirst(env, s.runs, s.catalog, ref, |s.catalog|, ids, now)) else s
  }

  // ---------------------------------------------------------------- catalog changes

  function SlugIndex(apps: seq<ManagedApp>, slug: string): (index: int)
    ensures -1 <= index < |apps|
    ensures index == -1 <==> forall i :: 0 <= i < |apps| ==> apps[i].slug != slug
    ensures index >= 0 ==> apps[index].slug == slug
  {
    if apps == [] then -1
    else if apps[0].slug == slug then 0
    else
      var rest := SlugIndex(apps[1..], slug);
      assert forall i :: 1 <= i < |apps| ==> apps[i] == apps[1..][i - 1];
      if rest < 0 then -1 else rest + 1
  }

  predicate ClientTaken(apps: seq<ManagedApp>, clientID: string) {
    exists i :: 0 <= i < |apps| && apps[i].clientID == clientID
  }

  /** The catalog after a change, or none when the change is refused. */
  datatype Change =
    | CreateApp(app: ManagedApp)
    | ReconcileBootstrap(app: ManagedApp)
    | ReconcileContract(appId: Uuid, contractHash: string)
    | DeleteApp(slug: string, deploymentOwned: set<string>)

  function Changed(apps: seq<ManagedApp>, change: Change): Option<seq<ManagedApp>> {
    match change
    case CreateApp(app) =>
      if SlugIndex(apps, app.slug) >= 0 || ClientTaken(apps, app.clientID) || IndexOf(apps, app.id) >= 0 then None
      else Some(InsertBySlug(apps, app))
    case ReconcileBootstrap(app) =>
      var i := SlugIndex(apps, app.slug);
      if i < 0 then
        if ClientTaken(apps, app.clientID) || IndexOf(apps, app.id) >= 0 then None else Some(InsertBySlug(apps, app))
      else if apps[i].clientID != app.clientID then None
      else Some(apps[i := app.(id := apps[i].id)])
    case ReconcileContract(appId, contractHash) =>
      var i := IndexOf(apps, appId);
      if i < 0 then None else Some(apps[i := apps[i].(contractHash := contractHash)])
    case DeleteApp(slug, deploymentOwned) =>
      var i := SlugIndex(apps, slug);
      if i < 0 || slug in deploymentOwned then None else Some(apps[..i] + apps[i + 1..])
  }

  /** Two of the operations skip the requeue when the stored contract did not change. */
  predicate Requeues(apps: seq<ManagedApp>, change: Change) {
    match change
    case ReconcileBootstrap(app) =>
      var i := SlugIndex(apps, app.slug);
      i < 0 || !SameContract(apps[i], app)
    case ReconcileContract(appId, contractHash) =>
      var i := IndexOf(apps, appId);
      i < 0 || apps[i].contractHash != contractHash
    case _ => true
  }

  /** Deleting an app takes its runs along when the schema cascades, and then frees the
      identities those runs held. */
  function AfterCascade(s: State, change: Change, cascade: bool): State {
    var i := if change.DeleteApp? then SlugIndex(s.catalog, change.slug) else -1;
    if i < 0 || !cascade then s
    else
      var gone := set id | id in s.runs && s.runs[id].target.appId == s.catalog[i].id;
      s.(runs := s.runs - gone, pool := Released(s.pool, gone))
  }

  ghost function ChangeCatalog(env: Env, s: State, change: Change, cascade: bool, ids: seq<(Uuid, Uuid)>, now: Time): State {
    var apps := Changed(s.catalog, change);
    if apps.None? then s
    else
      var changed := AfterCascade(s, change, cascade).(catalog := apps.value);
      if !Requeues(s.catalog, change) then changed
      else if FreshIds(changed.runs, changed.catalog, ids) then Requeued(env, changed, EVERY_APP, ids, now)
      else s
  }

  // ---------------------------------------------------------------- identity pool

  const SLOTS: seq<string> := ["-1", "-2", "-3"]

  ghost predicate Provisioned(pool: map<Uuid, Identity>, username: string) {
    exists u :: u in pool && pool[u].username == username
  }

  /** EnsureValidationUsers for the first n slots. */
  ghost function ProvisionFirst(pool: map<Uuid, Identity>, username: string, ids: seq<Uuid>, n: nat): map<Uuid, Identity>
    requires n <= |SLOTS| == |ids|
  {
    if n == 0 then pool
    else
      var before := ProvisionFirst(pool, username, ids, n - 1);
      if Provisioned(before, username + SLOTS[n - 1]) then before
      else before[ids[n - 1] := Identity(username + SLOTS[n - 1], None)]
  }

  ghost predicate FreshUsers(pool: map<Uuid, Identity>, ids: seq<Uuid>) {
    && |ids| == |SLOTS|
    && (forall i :: 0 <= i < |ids| ==> ids[i] !in pool)
    && (forall i, j :: 0 <= i < j < |ids| ==> ids[i] != ids[j])
  }

  // ---------------------------------------------------------------- steps and runs

  datatype Event =
    | Change(change: Change, cascade: bool, ids: seq<(Uuid, Uuid)>, now: Time)
    | Enqueue(ref: ManagedAppRef, ids: seq<(Uuid, Uuid)>, now: Time)
    | Claim(now: Time, lockedRuns: set<Uuid>, lockedUsers: set<Uuid>, outcome: ClaimOutcome)
    | CompleteRun(run: Uuid, passed: bool, now: Time)
    | Expire(now: Time)
    | Provision(username: string, userIds: seq<Uuid>)

  /** One committed transaction. A choice the code could not have made changes nothing. */
  ghost function Step(env: Env, s: State, e: Event): State {
    match e
    case Change(change, cascade, ids, now) => ChangeCatalog(env, s, change, cascade, ids, now)
    case Enqueue(ref, ids, now) => Requeued(env, s, ref, ids, now)
    case Claim(now, lockedRuns, lockedUsers, outcome) =>
      if outcome.Claimed? then
        if Claims(s, now, lockedRuns, lockedUsers, outcome, ClaimTarget(s, now, outcome)) then ClaimTarget(s, now, outcome) else s
      else if outcome.NoIdentity? then s
      else if Claims(s, now, lockedRuns, lockedUsers, outcome, Reap(s, now)) then Reap(s, now) else s
    case CompleteRun(run, passed, now) => Complete(s, run, passed, now)
    case Expire(now) => Reap(s, now)
    case Provision(username, userIds) =>
      if FreshUsers(s.pool, userIds) then s.(pool := ProvisionFirst(s.pool, username, userIds, |SLOTS|)) else s
  }

  function ClaimTarget(s: State, now: Time, outcome: ClaimOutcome): State
    requires outcome.Claimed?
  {
    var reaped := Reap(s, now);
    if outcome.run in reaped.runs && outcome.user in reaped.pool
    then Lease(reaped, outcome.run, outcome.user, now) else s
  }

  ghost function Exec(env: Env, s: State, events: seq<Event>): State {
    if events == [] then s
    else Step(env, Exec(env, s, events[..|events| - 1]), events[|events| - 1])
  }

  const EMPTY := State([], map[], map[])
}
