/** One application's gateway tables: sessions, logout tombstones and spent logout tokens. */
module GatewayTables {
  import opened Common

  const TOMBSTONE_LIFETIME: Time := 20 * MINUTE
  const ENDED_RETENTION: Time := 60 * MINUTE
  const SWEEP_LIMIT: nat := 500
  const TOMBSTONE_SWEEP_LIMIT: nat := 1000

  /** The digest of a browser token. */
  datatype TokenHash = TokenHash(digest: string)

  datatype Session = Session(subject: string, sid: string, createdAt: Time, expiresAt: Time, revokedAt: Option<Time>)

  datatype Tombstone = Tombstone(createdAt: Time, expiresAt: Time)

  /** Spent logout tokens are kept with their expiry. */
  datatype Tables = Tables(sessions: map<TokenHash, Session>, tombstones: map<string, Tombstone>, tokens: map<string, Time>)

  // ---------------------------------------------------------------- reading

  predicate InForce(session: Session, now: Time) {
    session.revokedAt.None? && session.expiresAt > now
  }

  function Find(t: Tables, token: TokenHash, now: Time): Option<Session> {
    if token in t.sessions && InForce(t.sessions[token], now) then Some(t.sessions[token]) else None
  }

  predicate Tombstoned(t: Tables, sid: string, now: Time) {
    sid in t.tombstones && t.tombstones[sid].expiresAt > now
  }

  // ---------------------------------------------------------------- sweeping

  function ExpiredTombstones(t: Tables, now: Time): set<string> {
    set sid | sid in t.tombstones && t.tombstones[sid].expiresAt <= now
  }

  predicate Ended(session: Session, cutoff: Time) {
    session.expiresAt <= cutoff || (session.revokedAt.Some? && session.revokedAt.value <= cutoff)
  }

  function EndedSessions(t: Tables, now: Time): set<TokenHash> {
    set k | k in t.sessions && Ended(t.sessions[k], now - ENDED_RETENTION)
  }

  function ExpiredTokens(t: Tables, now: Time): set<string> {
    set jti | jti in t.tokens && t.tokens[jti] <= now
  }

  /** The rows one request's sweeps removed. */
  datatype Swept = Swept(tombstones: set<string>, sessions: set<TokenHash>, tokens: set<string>)

  const NOTHING := Swept({}, {}, {})

  /** Each sweep removes a bounded batch of dead rows and nothing else. */
  predicate Sweepable(t: Tables, swept: Swept, now: Time) {
    && swept.tombstones <= ExpiredTombstones(t, now) && |swept.tombstones| <= TOMBSTONE_SWEEP_LIMIT
    && swept.sessions <= EndedSessions(t, now) && |swept.sessions| <= SWEEP_LIMIT
    && swept.tokens <= ExpiredTokens(t, now) && |swept.tokens| <= SWEEP_LIMIT
  }

  /** A sweep of spent tokens leaves an expired record only when its batch is full. */
  predicate TakesTokenBatch(t: Tables, swept: Swept, now: Time) {
    swept.tokens == ExpiredTokens(t, now) || |swept.tokens| == SWEEP_LIMIT
  }

  function Sweep(t: Tables, swept: Swept): Tables {
    Tables(t.sessions - swept.sessions, t.tombstones - swept.tombstones, t.tokens - swept.tokens)
  }

  // ---------------------------------------------------------------- writing

  function Later(a: Time, b: Time): Time { if a < b then b else a }

  function Earlier(a: Time, b: Time): Time { if b < a then b else a }

  /** Record a tombstone, keeping the later expiry and the earlier creation of one already there. */
  function Bury(t: Tables, sid: string, now: Time): Tables {
    var fresh' := Tombstone(now, now + TOMBSTONE_LIFETIME);
    var row := if sid in t.tombstones
      then Tombstone(Earlier(t.tombstones[sid].createdAt, now), Later(t.tombstones[sid].expiresAt, fresh'.expiresAt)) else fresh';
    t.(tombstones := t.tombstones[sid := row])
  }

  function RevokeSid(t: Tables, sid: string, now: Time): Tables {
    t.(sessions := map k | k in t.sessions ::
      if t.sessions[k].sid == sid && t.sessions[k].revokedAt.None? then t.sessions[k].(revokedAt := Some(now)) else t.sessions[k])
  }

  /** A request of this application; or one of another application, whose tombstone sweep
      is not limited to its own rows. */
  datatype Event =
    | Create(token: TokenHash, session: Session, now: Time, swept: Swept)
    | FrontLogout(sid: string, now: Time, swept: Swept)
    | BackLogout(sid: string, jti: string, expiresAt: Time, now: Time, swept: Swept)
    | RevokeBrowser(token: TokenHash, now: Time)
    | OtherApplication(now: Time, swept: Swept)

  /** What the sweeps of each transaction cover. */
  predicate SweepFits(t: Tables, e: Event) {
    match e
    case Create(_, _, now, swept) => Sweepable(t, swept, now)
    case FrontLogout(_, now, swept) => Sweepable(t, swept, now) && swept.sessions == {} && swept.tokens == {}
    case BackLogout(_, _, _, now, swept) => Sweepable(t, swept, now) && swept.sessions == {}
    case RevokeBrowser(_, _) => true
    case OtherApplication(now, swept) => Sweepable(t, swept, now) && swept.sessions == {} && swept.tokens == {}
  }

  /** The request succeeds. An empty provider session is refused; a callback is refused
      while its provider session is tombstoned; a spent logout token is refused. */
  predicate Accepts(t: Tables, e: Event) {
    match e
    case Create(token, session, now, swept) => session.sid != "" && token !in t.sessions - swept.sessions && !Tombstoned(t, session.sid, now)
    case FrontLogout(sid, now, swept) => sid != ""
    case BackLogout(sid, jti, expiresAt, now, swept) => sid != "" && jti !in t.tokens - swept.tokens
    case RevokeBrowser(_, _) => true
    case OtherApplication(_, _) => true
  }

  /** A refused request rolls its sweeps back too. */
  function Step(t: Tables, e: Event): Tables {
    if !SweepFits(t, e) || !Accepts(t, e) then t
    else match e
      case Create(token, session, now, swept) =>
        var kept := Sweep(t, swept);
        kept.(sessions := kept.sessions[token := session.(createdAt := now, revokedAt := None)])
      case FrontLogout(sid, now, swept) => RevokeSid(Bury(Sweep(t, swept), sid, now), sid, now)
      case BackLogout(sid, jti, expiresAt, now, swept) =>
        var kept := Sweep(t, swept);
        RevokeSid(Bury(kept.(tokens := kept.tokens[jti := expiresAt]), sid, now), sid, now)
      case RevokeBrowser(token, now) =>
        if token in t.sessions && t.sessions[token].revokedAt.None?
        then t.(sessions := t.sessions[token := t.sessions[token].(revokedAt := Some(now))]) else t
      case OtherApplication(now, swept) => Sweep(t, swept)
  }

  function Exec(t: Tables, events: seq<Event>): Tables {
    if events == [] then t
    else Step(Exec(t, events[..|events| - 1]), events[|events| - 1])
  }

  /** Moments do not run backwards and start no earlier than `from`. */
  ghost predicate Timely(events: seq<Event>, from: Time) {
    && (forall i :: 0 <= i < |events| ==> from <= events[i].now)
    && (forall i, j :: 0 <= i < j < |events| ==> events[i].now <= events[j].now)
  }
}
