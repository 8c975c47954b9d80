/** Global logout as a protocol: grants, recovery workers on any number of replicas,
    provider calls that fail, and cleanup, under every interleaving. */
module LogoutProtocol {
  import opened Common
  import opened Accounts
  import opened LogoutGrants
  import RevocationPool

  datatype Phase = EndBrowsers | RevokeSids | MarkComplete | Schedule | Stopped

  /** One execution of finalizeProviderLogout with what surrounds it: its own copy of the
      grant, the provider sessions it has revoked, and whether its context was cancelled. */
  datatype Worker = Worker(
    grant: Uuid, sids: set<Sid>, browsers: set<Uuid>, attempts: nat, phase: Phase, done: set<Sid>, cancelled: bool)

  /** What history remembers of a grant: its token, its snapshot, and how many revocations
      the provider had confirmed when it was created. */
  datatype Birth = Birth(token: string, sids: set<Sid>, browsers: set<Uuid>, confirmed: nat)

  /** `confirmed` lists the provider revocations that succeeded, in order; `births`,
      `completions` and `touched` are history: every grant ever created, the grants marked
      complete, in order, and when each stored row last changed. */
  datatype World = World(
    tables: Tables, grants: map<Uuid, Grant>, workers: map<nat, Worker>, clock: Time,
    confirmed: seq<Sid>, births: map<Uuid, Birth>, completions: seq<Uuid>, touched: map<Uuid, Time>)

  datatype LogoutEvent =
    | AccountChange(change: Accounts.Event)
    | CreateLogout(id: Uuid, token: string, subject: Uuid, browser: Option<Uuid>, expected: Option<Sid>, known: bool, now: Time)
    | Consume(id: Uuid, token: string, subject: Uuid, now: Time)
    | ClaimAbandoned(w: nat, id: Uuid, locked: set<Uuid>, now: Time)
    | ClaimFinished(w: nat, id: Uuid, token: string, now: Time)
    | FinalizeAtOnce(w: nat, id: Uuid)
    | ScheduleRetry(id: Uuid, attempts: nat, now: Time)
    | ProviderRevokes(sid: Sid)
    | WorkerEndsBrowsers(w: nat, ok: bool, now: Time)
    | WorkerRevokes(w: nat, sid: Sid)
    | WorkerPoolReturns(w: nat, listed: seq<Sid>, pool: seq<RevocationPool.Action>, ok: bool)
    | WorkerCancelled(w: nat)
    | WorkerCompletes(w: nat, now: Time)
    | WorkerSchedules(w: nat, ok: bool, now: Time)
    | WorkerDies(w: nat)
    | DeleteCompleted(ids: set<Uuid>, cutoff: Time, now: Time)

  // ---------------------------------------------------------------- steps

  function WithRow(s: World, id: Uuid, g: Grant, now: Time): World {
    s.(grants := s.grants[id := g], touched := s.touched[id := now], clock := now)
  }

  function WithWorker(s: World, w: nat, worker: Worker): World {
    s.(workers := s.workers[w := worker])
  }

  function NewWorker(id: Uuid, g: Grant, phase: Phase): Worker {
    Worker(id, g.activeSids, g.activeBrowsers, g.attempts, phase, {}, false)
  }

  predicate InPhase(s: World, w: nat, phase: Phase) {
    w in s.workers && s.workers[w].phase == phase
  }

  function ToPhase(s: World, w: nat, phase: Phase): World
    requires w in s.workers
  {
    WithWorker(s, w, s.workers[w].(phase := phase))
  }

  /** FailLogoutCorrelationGrant after `attempts` earlier tries; a completed or deleted row
      is left alone. */
  function Retry(s: World, id: Uuid, attempts: nat, now: Time): World {
    if id in s.grants && s.grants[id].completedAt.None?
    then WithRow(s, id, Rescheduled(s.grants[id], now + RecoveryDelay(attempts + 1)), now) else s
  }

  /** The moment of an event, for the clock. */
  function At(s: World, e: LogoutEvent): Time {
    match e
    case CreateLogout(_, _, _, _, _, _, now) => now
    case Consume(_, _, _, now) => now
    case ClaimAbandoned(_, _, _, now) => now
    case ClaimFinished(_, _, _, now) => now
    case ScheduleRetry(_, _, now) => now
    case WorkerEndsBrowsers(_, _, now) => now
    case WorkerCompletes(_, now) => now
    case WorkerSchedules(_, _, now) => now
    case DeleteCompleted(_, _, now) => now
    case _ => s.clock
  }

  /** The event can happen: time does not run backwards, identifiers and tokens are fresh,
      and the code is at that point. */
  ghost predicate Possible(s: World, e: LogoutEvent) {
    && At(s, e) >= s.clock
    && match e
       case AccountChange(_) => true
       case CreateLogout(id, token, subject, browser, expected, known, now) =>
         id !in s.births && id !in s.grants && (forall other :: other in s.births ==> s.births[other].token != token)
       case Consume(id, token, subject, now) => id in s.grants && Consumable(s.grants[id], token, subject, now)
       case ClaimAbandoned(w, id, locked, now) => w !in s.workers && NextToRecover(s.grants, locked, now, id)
       case ClaimFinished(w, id, token, now) => w !in s.workers && id in s.grants && Finishable(s.grants[id], token, now)
       case FinalizeAtOnce(w, id) => w !in s.workers && id in s.grants && s.grants[id].browserSids == {}
       case ScheduleRetry(id, _, _) => true
       case ProviderRevokes(_) => true
       case WorkerEndsBrowsers(w, _, _) => InPhase(s, w, EndBrowsers)
       case WorkerRevokes(w, sid) => InPhase(s, w, RevokeSids) && sid in s.workers[w].sids
       case WorkerPoolReturns(w, listed, pool, ok) =>
         && InPhase(s, w, RevokeSids) && (set sid | sid in listed) == s.workers[w].sids
         && RevocationPool.Returns(listed, {}, pool, ok, s.workers[w].done, s.workers[w].cancelled)
       case WorkerCancelled(w) => w in s.workers
       case WorkerCompletes(w, _) => InPhase(s, w, MarkComplete)
       case WorkerSchedules(w, _, _) => InPhase(s, w, Schedule)
       case WorkerDies(w) => w in s.workers
       case DeleteCompleted(ids, cutoff, _) =>
         |ids| <= CLEANUP_BATCH_MAXIMUM
         && forall id :: id in ids ==> id in s.grants && s.grants[id].completedAt.Some? && s.grants[id].completedAt.value < cutoff
  }

  ghost function Advance(s: World, e: LogoutEvent): World {
    if !Possible(s, e) then s
    else match e
      case AccountChange(change) => s.(tables := Accounts.Step(s.tables, change))
      case CreateLogout(id, token, subject, browser, expected, known, now) =>
        var made := CreateGrant(s.tables, subject, browser, expected, known, token, now);
        if made.Created? then
          WithRow(s, id, made.grant, now).(
            tables := made.tables,
            births := s.births[id := Birth(token, made.grant.activeSids, made.grant.activeBrowsers, |s.confirmed|)])
        else if made.NothingToRevoke? then s.(tables := made.tables, clock := now)
        else s
      case Consume(id, token, subject, now) => WithRow(s, id, Consumed(s.grants[id], now), now)
      case ClaimAbandoned(w, id, locked, now) =>
        var g := ClaimedGrant(s.grants[id], now);
        WithWorker(WithRow(s, id, g, now), w, NewWorker(id, g, EndBrowsers))
      case ClaimFinished(w, id, token, now) =>
        var g := ClaimedGrant(s.grants[id], now);
        WithWorker(WithRow(s, id, g, now), w, NewWorker(id, g, RevokeSids))
      case FinalizeAtOnce(w, id) => WithWorker(s, w, NewWorker(id, s.grants[id], RevokeSids))
      case ScheduleRetry(id, attempts, now) => Retry(s, id, attempts, now)
      case ProviderRevokes(sid) => s.(confirmed := s.confirmed + [sid])
      case WorkerEndsBrowsers(w, ok, now) =>
        if ok && !s.workers[w].cancelled
        then ToPhase(s.(tables := RevokeAll(s.tables, s.workers[w].browsers, now), clock := now), w, RevokeSids)
        else ToPhase(s, w, Schedule)
      case WorkerRevokes(w, sid) =>
        WithWorker(s.(confirmed := s.confirmed + [sid]), w, s.workers[w].(done := s.workers[w].done + {sid}))
      case WorkerPoolReturns(w, _, _, ok) => ToPhase(s, w, if ok then MarkComplete else Schedule)
      case WorkerCancelled(w) => WithWorker(s, w, s.workers[w].(cancelled := true))
      case WorkerCompletes(w, now) =>
        var id := s.workers[w].grant;
        // A database call on a cancelled context fails.
        if s.workers[w].cancelled || id !in s.grants || s.grants[id].completedAt.Some? then ToPhase(s, w, Schedule)
        else ToPhase(WithRow(s, id, Completed(s.grants[id], now), now).(completions := s.completions + [id]), w, Stopped)
      case WorkerSchedules(w, ok, now) =>
        var t := if ok && !s.workers[w].cancelled then Retry(s, s.workers[w].grant, s.workers[w].attempts, now) else s;
        ToPhase(t, w, Stopped)
      case WorkerDies(w) => ToPhase(s, w, Stopped)
      case DeleteCompleted(ids, _, now) => s.(grants := s.grants - ids, clock := now)
  }

  ghost function Run(s: World, events: seq<LogoutEvent>): World {
    if events == [] then s
    else Advance(Run(s, events[..|events| - 1]), events[|events| - 1])
  }

  /** No logout has begun. */
  ghost predicate Initial(s: World) {
    s.grants == map[] && s.workers == map[] && s.births == map[] && s.completions == [] && s.touched == map[]
  }
}
