/** What each gateway request does, said in the columns of its tables. */
module GatewayColumns {
  import opened Common
  import opened GatewayTables

  // ---------------------------------------------------------------- rows that go and stay

  /** Over for at least an hour: expired, or revoked. */
  predicate LongOver(s: Session, now: Time) {
    s.expiresAt <= now - 60 * MINUTE || (s.revokedAt.Some? && s.revokedAt.value <= now - 60 * MINUTE)
  }

  /** Outside `but`, exactly the swept rows of `t` are gone from `u`, each of them dead; the
      others are as they were. */
  ghost predicate RowsStay<K(!new), V(!new)>(t: map<K, V>, u: map<K, V>, swept: set<K>, but: set<K>, dead: V -> bool) {
    && (forall k :: k in t && k !in but && !dead(t[k]) ==> k !in swept)
    && (forall k :: k !in but ==> (k in u <==> k in t && k !in swept))
    && (forall k :: k in u && k !in but ==> k in t && u[k] == t[k])
  }

  /** Tombstones may go once they have expired; the others stay as they are. */
  ghost predicate TombstonesStay(t: Tables, u: Tables, swept: set<string>, but: set<string>, now: Time) {
    RowsStay(t.tombstones, u.tombstones, swept, but, (row: Tombstone) => row.expiresAt <= now)
  }

  /** Spent tokens may go once they have expired; the others stay as they are. */
  ghost predicate TokensStay(t: Tables, u: Tables, swept: set<string>, but: set<string>, now: Time) {
    RowsStay(t.tokens, u.tokens, swept, but, (expiry: Time) => expiry <= now)
  }

  /** What a sweep leaves it leaves because its batch was full. */
  ghost predicate TakesTombstones(t: Tables, swept: set<string>, now: Time) {
    |swept| == 1000 || forall sid :: sid in t.tombstones && t.tombstones[sid].expiresAt <= now ==> sid in swept
  }

  ghost predicate TakesSessions(t: Tables, swept: set<TokenHash>, now: Time) {
    |swept| == 500 || forall k :: k in t.sessions && LongOver(t.sessions[k], now) ==> k in swept
  }

  ghost predicate TakesTokens(t: Tables, swept: set<string>, now: Time) {
    |swept| == 500 || forall jti :: jti in t.tokens && t.tokens[jti] <= now ==> jti in swept
  }

  /** `row`, revoked now if it was not before and `chosen`. */
  function RevokedIf(row: Session, chosen: bool, now: Time): Session {
    if chosen && row.revokedAt == None then row.(revokedAt := Some(now)) else row
  }

  /** Every unrevoked session of the provider session is revoked now; no other session changes. */
  ghost predicate RevokesAll(t: Tables, u: Tables, sid: string, now: Time) {
    && u.sessions.Keys == t.sessions.Keys
    && forall k :: k in t.sessions ==> u.sessions[k] == RevokedIf(t.sessions[k], t.sessions[k].sid == sid, now)
  }

  /** The session behind the cookie is revoked now, unless it was before; nothing else changes. */
  ghost predicate RevokesOne(t: Tables, u: Tables, token: TokenHash, now: Time) {
    && u.tombstones == t.tombstones && u.tokens == t.tokens && u.sessions.Keys == t.sessions.Keys
    && forall k :: k in t.sessions ==> u.sessions[k] == RevokedIf(t.sessions[k], k == token, now)
  }

  /** The provider session has a tombstone until twenty minutes from now, or longer if it had
      one; its creation is now, or earlier if a tombstone still in force was created earlier. */
  ghost predicate Tombstones(t: Tables, u: Tables, expired: set<string>, sid: string, now: Time) {
    && TombstonesStay(t, u, expired, {sid}, now) && sid in u.tombstones
    && u.tombstones[sid].createdAt <= now && u.tombstones[sid].expiresAt >= now + 20 * MINUTE
    && (sid !in t.tombstones ==> u.tombstones[sid] == Tombstone(now, now + 20 * MINUTE))
    && (sid in t.tombstones && t.tombstones[sid].expiresAt <= now ==> u.tombstones[sid].expiresAt == now + 20 * MINUTE)
    && (sid in t.tombstones && t.tombstones[sid].expiresAt > now ==> Extends(t.tombstones[sid], u.tombstones[sid], now))
  }

  /** The new row keeps the longer expiry and the earlier creation. */
  predicate Extends(old': Tombstone, new': Tombstone, now: Time) {
    && old'.expiresAt <= new'.expiresAt && new'.expiresAt in {old'.expiresAt, now + 20 * MINUTE}
    && new'.createdAt <= old'.createdAt && new'.createdAt in {old'.createdAt, now}
  }

  // ---------------------------------------------------------------- the requests

  /** The request is refused: it names no provider session, the provider session was logged
      out less than its tombstone's time ago, or the logout token is already recorded. */
  predicate Refuses(t: Tables, e: Event) {
    match e
    case Create(token, session, now, swept) =>
      || session.sid == "" || (token in t.sessions && token !in swept.sessions)
      || (session.sid in t.tombstones && t.tombstones[session.sid].expiresAt > now)
    case FrontLogout(sid, _, _) => sid == ""
    case BackLogout(sid, jti, _, _, swept) => sid == "" || (jti in t.tokens && jti !in swept.tokens)
    case RevokeBrowser(_, _) => false
    case OtherApplication(_, _) => false
  }

  ghost predicate Does(t: Tables, e: Event, u: Tables) {
    match e
    case Create(token, session, now, swept) =>
      && token in u.sessions && u.sessions[token] == Session(session.subject, session.sid, now, session.expiresAt, None)
      && RowsStay(t.sessions, u.sessions, swept.sessions, {token}, (row: Session) => LongOver(row, now))
      && TombstonesStay(t, u, swept.tombstones, {}, now) && TokensStay(t, u, swept.tokens, {}, now)
    case FrontLogout(sid, now, swept) => RevokesAll(t, u, sid, now) && Tombstones(t, u, swept.tombstones, sid, now) && u.tokens == t.tokens
    case BackLogout(sid, jti, expiresAt, now, swept) =>
      && RevokesAll(t, u, sid, now) && Tombstones(t, u, swept.tombstones, sid, now)
      && TokensStay(t, u, swept.tokens, {jti}, now) && jti in u.tokens && u.tokens[jti] == expiresAt
    case RevokeBrowser(token, now) => RevokesOne(t, u, token, now)
    case OtherApplication(now, swept) => TombstonesStay(t, u, swept.tombstones, {}, now) && u.sessions == t.sessions && u.tokens == t.tokens
  }

  lemma RefusesIffNotAccepted(t: Tables, e: Event)
    ensures Accepts(t, e) <==> !Refuses(t, e)
  {
  }

  lemma LogoutInColumns(t: Tables, e: Event)
    requires SweepFits(t, e) && !Refuses(t, e) && (e.FrontLogout? || e.BackLogout?)
    ensures Does(t, e, Step(t, e))
  {
    RefusesIffNotAccepted(t, e);
    assert t.sessions - {} == t.sessions && t.tokens - {} == t.tokens;
  }

  lemma CreateInColumns(t: Tables, e: Event)
    requires SweepFits(t, e) && !Refuses(t, e) && e.Create?
    ensures Does(t, e, Step(t, e))
  {
    RefusesIffNotAccepted(t, e);
  }

  /** What a request does, in every case. */
  lemma RequestInColumns(t: Tables, e: Event)
    requires SweepFits(t, e)
    ensures Accepts(t, e) <==> !Refuses(t, e)
    ensures if Refuses(t, e) then Step(t, e) == t else Does(t, e, Step(t, e))
  {
    RefusesIffNotAccepted(t, e);
    if !Refuses(t, e) {
      match e
      case Create(_, _, _, _) => CreateInColumns(t, e);
      case FrontLogout(_, _, _) => LogoutInColumns(t, e);
      case BackLogout(_, _, _, _, _) => LogoutInColumns(t, e);
      case RevokeBrowser(_, _) =>
      case OtherApplication(_, _) => assert t.sessions - {} == t.sessions && t.tokens - {} == t.tokens;
    }
  }

  // ---------------------------------------------------------------- over histories

  /** No session in force is behind the cookie. */
  ghost predicate SignedOut(t: Tables, token: TokenHash) {
    token in t.sessions ==> t.sessions[token].revokedAt.Some?
  }

  lemma StepKeepsSignedOut(t: Tables, e: Event, token: TokenHash)
    requires SignedOut(t, token) && !(e.Create? && e.token == token)
    ensures SignedOut(Step(t, e), token)
  {
  }

  /** A browser that signed out stays signed out: whatever follows, short of a new session
      under the same cookie, the cookie finds no session at any moment. */
  lemma {:induction false} SignOutIsFinal(t: Tables, token: TokenHash, at: Time, events: seq<Event>, later: Time)
    requires forall i :: 0 <= i < |events| ==> !(events[i].Create? && events[i].token == token)
    ensures SignedOut(Exec(Step(t, RevokeBrowser(token, at)), events), token)
    ensures Find(Exec(Step(t, RevokeBrowser(token, at)), events), token, later) == None
    decreases |events|
  {
    if events != [] {
      var n := |events| - 1;
      SignOutIsFinal(t, token, at, events[..n], later);
      StepKeepsSignedOut(Exec(Step(t, RevokeBrowser(token, at)), events[..n]), events[n], token);
    }
  }

  /** The request ends the session behind the cookie, or replaces it. */
  predicate Disturbs(e: Event, token: TokenHash, sid: string) {
    match e
    case Create(k, _, _, _) => k == token
    case FrontLogout(x, _, _) => x == sid
    case BackLogout(x, _, _, _, _) => x == sid
    case RevokeBrowser(k, _) => k == token
    case OtherApplication(_, _) => false
  }

  lemma StepKeepsSession(t: Tables, e: Event, token: TokenHash, session: Session)
    requires token in t.sessions && t.sessions[token] == session && session.revokedAt == None && e.now < session.expiresAt
    requires !Disturbs(e, token, session.sid)
    ensures token in Step(t, e).sessions && Step(t, e).sessions[token] == session
  {
  }

  /** A session stored for a sign-in is found behind its cookie, with the columns it was stored
      with, until it expires, as long as nobody signs out of it. */
  lemma {:induction false} StoredSessionIsFound(t: Tables, e: Event, events: seq<Event>, later: Time)
    requires e.Create? && SweepFits(t, e) && !Refuses(t, e) && later < e.session.expiresAt
    requires forall i :: 0 <= i < |events| ==> events[i].now <= later && !Disturbs(events[i], e.token, e.session.sid)
    ensures var s := Session(e.session.subject, e.session.sid, e.now, e.session.expiresAt, None);
      var u := Exec(Step(t, e), events);
      e.token in u.sessions && u.sessions[e.token] == s && Find(u, e.token, later) == Some(s)
    decreases |events|
  {
    if events == [] {
      RequestInColumns(t, e);
    } else {
      var n := |events| - 1;
      StoredSessionIsFound(t, e, events[..n], later);
      StepKeepsSession(Exec(Step(t, e), events[..n]), events[n], e.token, Session(e.session.subject, e.session.sid, e.now, e.session.expiresAt, None));
    }
  }

  // ---------------------------------------------------------------- reading

  /** A cookie finds exactly the unrevoked, unexpired session stored under it. */
  lemma FindInColumns(t: Tables, token: TokenHash, now: Time)
    ensures Find(t, token, now).Some? <==> token in t.sessions && t.sessions[token].revokedAt == None && t.sessions[token].expiresAt > now
    ensures Find(t, token, now).Some? ==> token in t.sessions && Find(t, token, now).value == t.sessions[token]
  {
  }
}
