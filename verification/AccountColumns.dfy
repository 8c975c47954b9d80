/** What each account transaction does, said in the columns of the tables. */
module AccountColumns {
  import opened Common
  import opened Accounts
  import opened Containment

  // ---------------------------------------------------------------- sessions and rows

  /** Usable at this moment: not revoked, not expired, and seen within the idle limit. */
  predicate Usable(b: Browser, now: Time, idle: Time) {
    b.revokedAt.None? && b.expiresAt > now && b.lastSeen > now - idle
  }

  /** A session is ended now; one ended before keeps its moment. */
  function EndedNow(b: Browser, now: Time): Browser {
    if b.revokedAt.None? then Browser(b.user, b.createdAt, b.lastSeen, b.expiresAt, Some(now)) else b
  }

  /** Every unrevoked session of the account ends now, and no other session changes. */
  ghost predicate EndsSessionsOf(t: Tables, u: Tables, user: Uuid, now: Time) {
    && u.sessions.Keys == t.sessions.Keys
    && forall id :: id in t.sessions ==> u.sessions[id] == if t.sessions[id].user == user then EndedNow(t.sessions[id], now) else t.sessions[id]
  }

  /** One users row is replaced. */
  ghost predicate ReplacesUser(t: Tables, u: Tables, user: Uuid, row: User) {
    && u.users.Keys == t.users.Keys + {user} && u.users[user] == row
    && forall x :: x in t.users && x != user ==> u.users[x] == t.users[x]
  }

  /** The provider session may be bound to the browser session: it is unbound, bound to it
      already, or bound to a session of the same account that is no longer usable. */
  predicate Bindable(t: Tables, browser: Uuid, sid: Sid, now: Time, idle: Time)
    requires browser in t.sessions
  {
    sid in t.links && t.links[sid].browser != browser ==>
      t.links[sid].browser in t.sessions
      && t.sessions[t.links[sid].browser].user == t.sessions[browser].user
      && !Usable(t.sessions[t.links[sid].browser], now, idle)
  }

  /** The account is there and not disabled. */
  predicate Enabled(t: Tables, user: Uuid) { user in t.users && t.users[user].disabledAt == None }

  // ---------------------------------------------------------------- the transactions

  /** The transaction is refused, and then nothing changes. */
  predicate Refuses(t: Tables, e: Event) {
    match e
    case AddUser(user, _, _) => user in t.users
    case ChangeProfile(user, _) => user !in t.users
    case CreateSession(user, id, _, _) => !Enabled(t, user) || id in t.sessions
    case Touch(id, _) => id !in t.sessions
    case Record(browser, sid, now, idle) =>
      || sid.text == "" || browser !in t.sessions || !Enabled(t, t.sessions[browser].user)
      || !Usable(t.sessions[browser], now, idle) || !Bindable(t, browser, sid, now, idle)
    case Revoke(_, _) => false
    case RevokeUser(user, _) => !Enabled(t, user)
    case Disable(user, _) => user !in t.users || t.users[user].isValidation
    case Enable(user) => user !in t.users
    case ChangePolicy(_, _) => false
  }

  /** What a transaction that is not refused does: which columns of which rows change, and
      that no others do. */
  ghost predicate Does(t: Tables, e: Event, u: Tables) {
    match e
    case AddUser(user, profile, isValidation) =>
      && ReplacesUser(t, u, user, User(profile, None, isValidation))
      && u.sessions == t.sessions && u.links == t.links && u.absolute == t.absolute && u.idle == t.idle
    case ChangeProfile(user, profile) =>
      && user in t.users && ReplacesUser(t, u, user, User(profile, t.users[user].disabledAt, t.users[user].isValidation))
      && u.sessions == t.sessions && u.links == t.links && u.absolute == t.absolute && u.idle == t.idle
    case CreateSession(user, id, lifetime, now) =>
      && u.sessions == t.sessions[id := Browser(user, now, now, now + lifetime, None)]
      && u.users == t.users && u.links == t.links && u.absolute == t.absolute && u.idle == t.idle
    case Touch(id, now) =>
      && id in t.sessions && var b := t.sessions[id];
      && u.sessions == t.sessions[id := Browser(b.user, b.createdAt, now, b.expiresAt, b.revokedAt)]
      && u.users == t.users && u.links == t.links && u.absolute == t.absolute && u.idle == t.idle
    case Record(browser, sid, now, _) =>
      && u.links == t.links[sid := Link(browser, now)]
      && u.users == t.users && u.sessions == t.sessions && u.absolute == t.absolute && u.idle == t.idle
    case Revoke(ids, now) =>
      && u.sessions.Keys == t.sessions.Keys
      && (forall id :: id in t.sessions ==> u.sessions[id] == if id in ids then EndedNow(t.sessions[id], now) else t.sessions[id])
      && u.users == t.users && u.links == t.links && u.absolute == t.absolute && u.idle == t.idle
    case RevokeUser(user, now) =>
      && EndsSessionsOf(t, u, user, now)
      && u.users == t.users && u.links == t.links && u.absolute == t.absolute && u.idle == t.idle
    case Disable(user, now) =>
      && EndsSessionsOf(t, u, user, now) && user in t.users
      && ReplacesUser(t, u, user, User(t.users[user].profile, Some(if t.users[user].disabledAt.Some? then t.users[user].disabledAt.value else now), t.users[user].isValidation))
      && u.links == t.links && u.absolute == t.absolute && u.idle == t.idle
    case Enable(user) =>
      && user in t.users && ReplacesUser(t, u, user, User(t.users[user].profile, None, t.users[user].isValidation))
      && u.sessions == t.sessions && u.links == t.links && u.absolute == t.absolute && u.idle == t.idle
    case ChangePolicy(absolute, idle) =>
      && u.absolute == absolute && u.idle == idle && u.sessions.Keys == t.sessions.Keys
      && (forall id :: id in t.sessions ==> Shortened(t.sessions[id], u.sessions[id], absolute))
      && u.users == t.users && u.links == t.links
  }

  /** An unrevoked session expires no later than its creation plus the lifetime; no other
      column, and no revoked session, changes. */
  predicate Shortened(b: Browser, c: Browser, absolute: Time) {
    && c == Browser(b.user, b.createdAt, b.lastSeen, c.expiresAt, b.revokedAt)
    && c.expiresAt == if b.revokedAt.None? && b.createdAt + absolute < b.expiresAt then b.createdAt + absolute else b.expiresAt
  }

  lemma StepInColumns(t: Tables, e: Event)
    ensures if Refuses(t, e) then Step(t, e) == t else Does(t, e, Step(t, e))
    ensures Effective(t, e) <==> !Refuses(t, e)
  {
    RefusesIffNotEffective(t, e);
  }

  lemma RefusesIffNotEffective(t: Tables, e: Event)
    ensures Effective(t, e) <==> !Refuses(t, e)
  {
  }

  // ---------------------------------------------------------------- over histories

  /** The transaction names the session, or the account whose sessions it ends. */
  predicate EndsSession(t: Tables, e: Event, id: Uuid)
    requires id in t.sessions
  {
    match e
    case Revoke(ids, _) => id in ids
    case RevokeUser(user, _) => t.sessions[id].user == user
    case Disable(user, _) => t.sessions[id].user == user
    case _ => false
  }

  /** Over any history a session is ended only by a transaction that names it or its account,
      at that transaction's moment. */
  lemma {:induction false} EndedOnlyWhenNamed(t: Tables, events: seq<Event>, id: Uuid) returns (i: nat)
    requires Inv(t) && id in t.sessions && t.sessions[id].revokedAt.None?
    requires id in Exec(t, events).sessions && Exec(t, events).sessions[id].revokedAt.Some?
    ensures HappensAt(t, events, i) && id in Exec(t, events[..i]).sessions && EndsSession(Exec(t, events[..i]), events[i], id)
    ensures Exec(t, events).sessions[id].revokedAt == Some(events[i].now)
    decreases |events|
  {
    var n := |events| - 1;
    var before := Exec(t, events[..n]);
    HistoryKeepsInv(t, events[..n]);
    StepInColumns(before, events[n]);
    if before.sessions[id].revokedAt.Some? {
      i := EndedOnlyWhenNamed(t, events[..n], id);
      assert events[..n][..i] == events[..i];
    } else {
      i := n;
    }
  }

  /** Disabling answers exactly the provider sessions of the account. */
  lemma DisableAnswersExactly(t: Tables, user: Uuid, sid: Sid)
    requires Inv(t)
    ensures sid in SessionsToRevoke(t, user) <==> sid in t.links && t.sessions[t.links[sid].browser].user == user
  {
  }
}
