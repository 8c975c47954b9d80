/** Durable logout grants. */
module LogoutGrants {
  import opened Common
  import opened Accounts
  import RevocationPool

  // What each store operation does to one row, and the transaction that takes the snapshot.

  const CORRELATION_LIFETIME: Time := 2 * MINUTE
  const COMPLETION_LIFETIME: Time := 5 * MINUTE
  const CLEANUP_LEASE: Time := 30 * SECOND
  const CLEANUP_BATCH_MAXIMUM: nat := 1000

  /** A row of logout_correlation_grants. `failed` is a non-empty last_error. */
  datatype Grant = Grant(
    token: string, subject: Uuid, browser: Uuid, activeBrowsers: set<Uuid>, browserSids: set<Sid>, activeSids: set<Sid>,
    createdAt: Time, expiresAt: Time, consumedAt: Option<Time>, completedAt: Option<Time>,
    cleanupAfter: Time, claimedUntil: Option<Time>, attempts: nat, failed: bool)

  // ---------------------------------------------------------------- taking the snapshot

  datatype CreateOutcome =
    | Refused
    | SessionInactive
    | NothingToRevoke(tables: Tables)
    | Created(tables: Tables, grant: Grant)

  /** The browser session a logout names: the given one, or the one the expected provider
      session is correlated with. */
  function LogoutBrowser(t: Tables, subject: Uuid, browser: Option<Uuid>, expected: Option<Sid>): Option<Uuid> {
    if browser.Some? then browser
    else if expected.Some? && expected.value in t.links
            && t.links[expected.value].browser in t.sessions && t.sessions[t.links[expected.value].browser].user == subject
    then Some(t.links[expected.value].browser)
    else None
  }

  /** The expected provider session belongs to a browser session that already ended. */
  predicate ProviderOnly(t: Tables, subject: Uuid, browser: Option<Uuid>, expected: Option<Sid>) {
    browser.None? && LogoutBrowser(t, subject, browser, expected).Some?
    && t.sessions[t.links[expected.value].browser].revokedAt.Some?
  }

  /** CreateLogoutCorrelationGrant, serialized per account by its row lock.
      `destinationKnown` is whether the client's signed-out address resolves. */
  function CreateGrant(t: Tables, subject: Uuid, browser: Option<Uuid>, expected: Option<Sid>, destinationKnown: bool,
                       token: string, now: Time): CreateOutcome {
    var named := LogoutBrowser(t, subject, browser, expected);
    if !Active(t, subject) || !destinationKnown || named.None? then Refused
    else if ProviderOnly(t, subject, browser, expected) then
      Created(t, NewGrant(token, subject, named.value, {}, {expected.value}, {expected.value}, now))
    else
      var active := UnrevokedOf(t, subject);
      var browserSids, activeSids := LinkedTo(t, {named.value}), LinkedTo(t, active);
      if named.value !in active then SessionInactive
      else if expected.Some? && expected.value !in browserSids then Refused
      else if activeSids == {} then NothingToRevoke(RevokeAll(t, active, now))
      else Created(RevokeAll(t, active, now), NewGrant(token, subject, named.value, active, browserSids, activeSids, now))
  }

  function NewGrant(token: string, subject: Uuid, browser: Uuid, activeBrowsers: set<Uuid>, browserSids: set<Sid>, activeSids: set<Sid>,
                    now: Time): Grant {
    Grant(token, subject, browser, activeBrowsers, browserSids, activeSids, now, now + CORRELATION_LIFETIME,
          None, None, now + CORRELATION_LIFETIME, None, 0, false)
  }

  // ---------------------------------------------------------------- one row

  predicate Consumable(g: Grant, token: string, subject: Uuid, now: Time) {
    g.token == token && g.subject == subject && g.consumedAt.None? && g.completedAt.None? && g.expiresAt > now
  }

  function Consumed(g: Grant, now: Time): Grant {
    g.(consumedAt := Some(now), cleanupAfter := now + COMPLETION_LIFETIME)
  }

  predicate Unclaimed(g: Grant, now: Time) {
    g.claimedUntil.None? || g.claimedUntil.value <= now
  }

  /** Recovery may lease this row now. */
  predicate Recoverable(g: Grant, now: Time) {
    g.completedAt.None? && g.cleanupAfter <= now && Unclaimed(g, now)
  }

  /** The browser that returned from Hydra may lease this row now. */
  predicate Finishable(g: Grant, token: string, now: Time) {
    g.token == token && g.consumedAt.Some? && g.completedAt.None? && Unclaimed(g, now)
  }

  function ClaimedGrant(g: Grant, now: Time): Grant {
    g.(claimedUntil := Some(now + CLEANUP_LEASE), attempts := g.attempts + 1)
  }

  function Completed(g: Grant, now: Time): Grant {
    g.(completedAt := Some(now), claimedUntil := None, failed := false)
  }

  function Rescheduled(g: Grant, retryAt: Time): Grant {
    g.(cleanupAfter := retryAt, claimedUntil := None, failed := true)
  }

  /** Recovery takes the row that has waited longest: ORDER BY cleanup_after, id. */
  predicate WaitedLonger(grants: map<Uuid, Grant>, a: Uuid, b: Uuid)
    requires a in grants && b in grants
  {
    grants[a].cleanupAfter < grants[b].cleanupAfter
    || (grants[a].cleanupAfter == grants[b].cleanupAfter && TextLess(a.text, b.text))
  }

  ghost predicate NextToRecover(grants: map<Uuid, Grant>, locked: set<Uuid>, now: Time, id: Uuid) {
    && id in grants && id !in locked && Recoverable(grants[id], now)
    && forall other :: other in grants && other !in locked && Recoverable(grants[other], now) && other != id
         ==> WaitedLonger(grants, id, other)
  }

  // ---------------------------------------------------------------- backoff

  /** logoutRecoveryDelay: five seconds, doubling, at most six times over. */
  function RecoveryDelay(attempt: int): (delay: Time)
    ensures 5 * SECOND <= delay <= 160 * SECOND
  {
    var a := if attempt < 1 then 1 else if attempt > 6 then 6 else attempt;
    Doubled(a - 1) * 5 * SECOND
  }

  /** 1 << n. */
  function Doubled(n: nat): (r: nat)
    ensures r >= 1
    ensures n <= 5 ==> r == [1, 2, 4, 8, 16, 32][n]
  {
    if n == 0 then 1 else 2 * Doubled(n - 1)
  }

  /** The delay doubles with each attempt up to the sixth and then stays. */
  lemma DelayDoublesThenStays(attempt: int)
    ensures RecoveryDelay(1) == 5 * SECOND && RecoveryDelay(6) == 160 * SECOND
    ensures 1 <= attempt < 6 ==> RecoveryDelay(attempt + 1) == 2 * RecoveryDelay(attempt)
    ensures attempt >= 6 ==> RecoveryDelay(attempt) == 160 * SECOND
    ensures attempt < 1 ==> RecoveryDelay(attempt) == 5 * SECOND
  {
  }

  // ---------------------------------------------------------------- what a snapshot captures

  /** A logout that is not provider-only ends every browser session of the account, touches
      no other account's, and captures exactly the provider sessions correlated with the
      sessions it ended; every one of those sessions is in the grant. */
  lemma {:induction false} SnapshotIsComplete(t: Tables, subject: Uuid, browser: Option<Uuid>, expected: Option<Sid>, known: bool, token: string, now: Time)
    requires CreateGrant(t, subject, browser, expected, known, token, now).Created?
    requires !ProviderOnly(t, subject, browser, expected)
    ensures var made := CreateGrant(t, subject, browser, expected, known, token, now);
      && UnrevokedOf(made.tables, subject) == {}
      && made.grant.activeBrowsers == UnrevokedOf(t, subject)
      && (forall sid :: sid in made.grant.activeSids <==> sid in t.links && t.links[sid].browser in UnrevokedOf(t, subject))
      && (forall id :: id in t.sessions && t.sessions[id].user != subject ==> made.tables.sessions[id] == t.sessions[id])
      && made.grant.browser in made.grant.activeBrowsers && made.grant.browserSids <= made.grant.activeSids
  {
    var made := CreateGrant(t, subject, browser, expected, known, token, now);
    var active := UnrevokedOf(t, subject);
    forall id | id in made.tables.sessions && made.tables.sessions[id].user == subject
      ensures made.tables.sessions[id].revokedAt.Some?
    {
      assert id in active || t.sessions[id].revokedAt.Some?;
    }
  }

  /** A grant leaves every browser session alone exactly when it is provider-only; it then
      holds the one provider session asked for. */
  lemma ProviderOnlyTouchesNoBrowser(t: Tables, subject: Uuid, browser: Option<Uuid>, expected: Option<Sid>, known: bool, token: string, now: Time)
    requires CreateGrant(t, subject, browser, expected, known, token, now).Created?
    ensures var made := CreateGrant(t, subject, browser, expected, known, token, now);
      && (made.tables == t <==> ProviderOnly(t, subject, browser, expected))
      && (made.grant.activeBrowsers == {} <==> ProviderOnly(t, subject, browser, expected))
      && (made.tables == t ==> made.grant.activeSids == made.grant.browserSids == {expected.value})
  {
    var made := CreateGrant(t, subject, browser, expected, known, token, now);
    if !ProviderOnly(t, subject, browser, expected) {
      var named := LogoutBrowser(t, subject, browser, expected).value;
      assert made.tables.sessions[named] != t.sessions[named];
    }
  }

  /** When no provider session is correlated, the account's browser sessions still all end. */
  lemma {:induction false} LogoutWithoutProviderSessionsEndsBrowsers(t: Tables, subject: Uuid, browser: Option<Uuid>, expected: Option<Sid>, known: bool, token: string, now: Time)
    requires CreateGrant(t, subject, browser, expected, known, token, now).NothingToRevoke?
    ensures var made := CreateGrant(t, subject, browser, expected, known, token, now);
      UnrevokedOf(made.tables, subject) == {} && LinkedTo(t, UnrevokedOf(t, subject)) == {}
  {
    var made := CreateGrant(t, subject, browser, expected, known, token, now);
    forall id | id in made.tables.sessions && made.tables.sessions[id].user == subject
      ensures made.tables.sessions[id].revokedAt.Some?
    {
      assert id in UnrevokedOf(t, subject) || t.sessions[id].revokedAt.Some?;
    }
  }

  // ---------------------------------------------------------------- relying-party logout

  /** preservedPublicLogoutSessions: the sessions Hydra's public flow ends itself. */
  function Preserved(requested: Option<Sid>, browserSids: set<Sid>): Option<set<Sid>> {
    if requested.Some? then
      if requested.value in browserSids then Some({requested.value}) else None
    else if browserSids == {} then None
    else Some(browserSids)
  }

  /** A relying party's logout names its provider session and no browser. If it is not
      refused, the grant holds that session and carries a token, so the mismatch branch
      cannot be taken; and however the snapshot is listed, the sessions the pool is given at
      once are the snapshot without the preserved one. An empty identifier is refused
      before. */
  lemma RelyingPartyLogoutAlwaysMatches(t: Tables, subject: Uuid, sid: Sid, known: bool, token: string, now: Time, listed: seq<Sid>, id: Sid)
    requires token != ""
    ensures var made := CreateGrant(t, subject, None, Some(sid), known, token, now);
      && !made.NothingToRevoke?
      && (made.Created? ==>
            && made.grant.token != "" && sid in made.grant.browserSids && sid in made.grant.activeSids
            && Preserved(Some(sid), made.grant.browserSids) == Some({sid})
            && (sid.text != "" && (set x | x in listed) == made.grant.activeSids ==>
                  var preserved := Preserved(Some(sid), made.grant.browserSids).value;
                  var atOnce := RevocationPool.Targets(listed, preserved);
                  && (id in atOnce || id in preserved <==> id in made.grant.activeSids)
                  && !(id in atOnce && id in preserved)))
  {
    var made := CreateGrant(t, subject, None, Some(sid), known, token, now);
    var named := LogoutBrowser(t, subject, None, Some(sid));
    if named.Some? && named.value in UnrevokedOf(t, subject) {
      assert sid in LinkedTo(t, {named.value}) && sid in LinkedTo(t, UnrevokedOf(t, subject));
    }
    RevocationPool.TargetsAreListedMinusExcluded(listed, {sid}, id);
    if made.Created? && (set x | x in listed) == made.grant.activeSids {
      assert id in listed <==> id in made.grant.activeSids;
    }
  }
}
