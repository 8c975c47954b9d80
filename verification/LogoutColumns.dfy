/** Logout grants in columns: when one is created and what it then holds. */
module LogoutColumns {
  import opened Common
  import opened Accounts
  import opened AccountColumns
  import opened LogoutGrants

  // ---------------------------------------------------------------- creating

  /** The provider session is bound to a browser session of the account. */
  predicate FoundBySid(t: Tables, subject: Uuid, expected: Option<Sid>) {
    && expected.Some? && expected.value in t.links && t.links[expected.value].browser in t.sessions
    && t.sessions[t.links[expected.value].browser].user == subject
  }

  /** The logout names a browser session: outright, or through its provider session. */
  predicate NamesBrowser(t: Tables, subject: Uuid, browser: Option<Uuid>, expected: Option<Sid>) {
    browser.Some? || FoundBySid(t, subject, expected)
  }

  function Named(t: Tables, subject: Uuid, browser: Option<Uuid>, expected: Option<Sid>): Uuid
    requires NamesBrowser(t, subject, browser, expected)
  {
    if browser.Some? then browser.value else t.links[expected.value].browser
  }

  /** Found through its provider session, and ended before. */
  predicate EndedBefore(t: Tables, subject: Uuid, browser: Option<Uuid>, expected: Option<Sid>)
    requires NamesBrowser(t, subject, browser, expected)
  {
    browser.None? && t.sessions[t.links[expected.value].browser].revokedAt.Some?
  }

  predicate OpenFor(t: Tables, subject: Uuid, id: Uuid) {
    id in t.sessions && t.sessions[id].user == subject && t.sessions[id].revokedAt == None
  }

  predicate BoundTo(t: Tables, sid: Sid, browser: Uuid) {
    sid in t.links && t.links[sid].browser == browser
  }

  ghost predicate SomeSidOpen(t: Tables, subject: Uuid) {
    exists sid :: sid in t.links && OpenFor(t, subject, t.links[sid].browser)
  }

  /** The tables after a logout that is not provider-only. */
  ghost predicate EndsAll(t: Tables, u: Tables, subject: Uuid, now: Time) {
    EndsSessionsOf(t, u, subject, now) && u.users == t.users && u.links == t.links && u.absolute == t.absolute && u.idle == t.idle
  }

  /** A grant just created: its browser token lasts two minutes, and recovery waits as long. */
  predicate JustCreated(g: Grant, token: string, subject: Uuid, browser: Uuid, now: Time) {
    && g.token == token && g.subject == subject && g.browser == browser && g.createdAt == now
    && g.expiresAt == now + 2 * MINUTE && g.cleanupAfter == now + 2 * MINUTE
    && g.consumedAt.None? && g.completedAt.None? && g.claimedUntil.None? && g.attempts == 0 && !g.failed
  }

  /** Which of the four outcomes a logout has, and what it leaves, in every case. */
  lemma LogoutOutcomeInColumns(t: Tables, subject: Uuid, browser: Option<Uuid>, expected: Option<Sid>, known: bool, token: string, now: Time)
    ensures var made := CreateGrant(t, subject, browser, expected, known, token, now);
      if !Enabled(t, subject) || !known || !NamesBrowser(t, subject, browser, expected) then made.Refused?
      else
        var named := Named(t, subject, browser, expected);
        if EndedBefore(t, subject, browser, expected) then
          && made.Created? && made.tables == t && JustCreated(made.grant, token, subject, named, now)
          && made.grant.activeBrowsers == {} && made.grant.activeSids == made.grant.browserSids == {expected.value}
        else if !OpenFor(t, subject, named) then made.SessionInactive?
        else if expected.Some? && !BoundTo(t, expected.value, named) then made.Refused?
        else if !SomeSidOpen(t, subject) then made.NothingToRevoke? && EndsAll(t, made.tables, subject, now)
        else
          && made.Created? && EndsAll(t, made.tables, subject, now) && JustCreated(made.grant, token, subject, named, now)
          && (forall id :: id in made.grant.activeBrowsers <==> OpenFor(t, subject, id))
          && (forall sid :: sid in made.grant.browserSids <==> BoundTo(t, sid, named))
          && (forall sid :: sid in made.grant.activeSids <==> sid in t.links && OpenFor(t, subject, t.links[sid].browser))
  {
    var active := UnrevokedOf(t, subject);
    assert forall id :: id in active <==> OpenFor(t, subject, id);
    if SomeSidOpen(t, subject) {
      var sid :| sid in t.links && OpenFor(t, subject, t.links[sid].browser);
      assert sid in LinkedTo(t, active);
    }
  }

  /** Which sessions the provider's own flow ends: the one it named when this browser holds
      it, every one of this browser's when it named none, and a mismatch otherwise. */
  lemma PreservedInColumns(requested: Option<Sid>, browserSids: set<Sid>, sid: Sid)
    ensures var kept := Preserved(requested, browserSids);
      && (kept.None? <==> (requested.Some? && requested.value !in browserSids) || (requested.None? && forall x :: x !in browserSids))
      && (kept.Some? ==> (sid in kept.value <==> sid in browserSids && (requested.Some? ==> sid == requested.value)))
  {
  }

  // ---------------------------------------------------------------- rows

  /** The browser's token may be exchanged: not before spent, not complete, not past its time. */
  predicate Exchangeable(g: Grant, token: string, subject: Uuid, now: Time) {
    && g.token == token && g.subject == subject && g.expiresAt > now
    && g.consumedAt == None && g.completedAt == None
  }

  /** Nobody holds a lease on the row. */
  predicate NotLeased(g: Grant, now: Time) { g.claimedUntil == None || g.claimedUntil.value <= now }

  /** Due for recovery. */
  predicate Due(g: Grant, now: Time) { g.completedAt == None && g.cleanupAfter <= now && NotLeased(g, now) }

  /** Consumed by its browser and waiting to be finished. */
  predicate Waiting(g: Grant, token: string, now: Time) {
    g.token == token && g.consumedAt.Some? && g.completedAt == None && NotLeased(g, now)
  }

  /** One row is replaced and no other changes. */
  ghost predicate ReplacesRow(before: map<Uuid, Grant>, after: map<Uuid, Grant>, id: Uuid, row: Grant) {
    && id in before && after.Keys == before.Keys && after[id] == row
    && forall x :: x in before && x != id ==> after[x] == before[x]
  }
}
