/** Accounts, browser sessions and the provider sessions correlated with them: the
    tables and what each committed transaction does. */
module Accounts {
  import opened Common

  /** The account columns a token carries. */
  datatype Profile = Profile(email: string, emailVerified: string, username: string, role: string)

  datatype User = User(profile: Profile, disabledAt: Option<Time>, isValidation: bool)

  datatype Browser = Browser(user: Uuid, createdAt: Time, lastSeen: Time, expiresAt: Time, revokedAt: Option<Time>)

  /** A row of hydra_login_sessions. */
  datatype Link = Link(browser: Uuid, recordedAt: Time)

  /** users, sessions, hydra_login_sessions, and the stored browser lifetimes. */
  datatype Tables = Tables(
    users: map<Uuid, User>, sessions: map<Uuid, Browser>, links: map<Sid, Link>, absolute: Time, idle: Time)

  // ---------------------------------------------------------------- reading

  /** lockActiveUser succeeds. */
  predicate Active(t: Tables, user: Uuid) {
    user in t.users && t.users[user].disabledAt.None?
  }

  function SessionsOf(t: Tables, user: Uuid): set<Uuid> {
    set id | id in t.sessions && t.sessions[id].user == user
  }

  function UnrevokedOf(t: Tables, user: Uuid): set<Uuid> {
    set id | id in t.sessions && t.sessions[id].user == user && t.sessions[id].revokedAt.None?
  }

  /** hydraSessionIDsForBrowsers. */
  function LinkedTo(t: Tables, browsers: set<Uuid>): set<Sid> {
    set sid | sid in t.links && t.links[sid].browser in browsers
  }

  /** Revoked, past its absolute expiry, or idle. */
  predicate Stale(browser: Browser, now: Time, idle: Time) {
    browser.revokedAt.Some? || browser.expiresAt <= now || browser.lastSeen <= now - idle
  }

  /** ProviderSessionAccount: the owner and whether its browser session is in force;
      none when no browser session was ever correlated. */
  function ProviderSessionAccount(t: Tables, sid: Sid): Option<(Uuid, bool)> {
    if sid in t.links && t.links[sid].browser in t.sessions then
      var browser := t.sessions[t.links[sid].browser];
      Some((browser.user, browser.revokedAt.None?))
    else None
  }

  // ---------------------------------------------------------------- writing

  function Revoked(browser: Browser, now: Time): Browser {
    if browser.revokedAt.None? then browser.(revokedAt := Some(now)) else browser
  }

  /** UPDATE sessions SET revoked_at=now WHERE id=ANY(ids) AND revoked_at IS NULL. */
  function RevokeAll(t: Tables, ids: set<Uuid>, now: Time): Tables {
    t.(sessions := map id | id in t.sessions :: if id in ids then Revoked(t.sessions[id], now) else t.sessions[id])
  }

  /** RecordHydraLoginSession may bind the provider session to this browser session. */
  predicate MayRecord(t: Tables, browser: Uuid, sid: Sid, now: Time, idle: Time) {
    && sid.text != ""
    && browser in t.sessions && Active(t, t.sessions[browser].user) && !Stale(t.sessions[browser], now, idle)
    && (sid in t.links ==>
          var bound := t.links[sid].browser;
          bound == browser || (bound in t.sessions && t.sessions[bound].user == t.sessions[browser].user && Stale(t.sessions[bound], now, idle)))
  }

  function Capped(browser: Browser, absolute: Time): Browser {
    if browser.revokedAt.None? && browser.expiresAt > browser.createdAt + absolute
    then browser.(expiresAt := browser.createdAt + absolute) else browser
  }

  /** A shorter lifetime reaches sessions that already exist; a longer one does not. */
  function UpdatePolicy(t: Tables, absolute: Time, idle: Time): Tables {
    t.(absolute := absolute, idle := idle, sessions := map id | id in t.sessions :: Capped(t.sessions[id], absolute))
  }

  /** DisableUser answers the provider sessions of every browser session the account ever had. */
  function SessionsToRevoke(t: Tables, user: Uuid): set<Sid> { LinkedTo(t, SessionsOf(t, user)) }

  datatype Event =
    | AddUser(user: Uuid, profile: Profile, isValidation: bool)
    | ChangeProfile(user: Uuid, profile: Profile)
    | CreateSession(user: Uuid, id: Uuid, lifetime: Time, now: Time)
    | Touch(id: Uuid, now: Time)
    | Record(browser: Uuid, sid: Sid, now: Time, idle: Time)
    | Revoke(ids: set<Uuid>, now: Time)
    | RevokeUser(user: Uuid, now: Time)
    | Disable(user: Uuid, now: Time)
    | Enable(user: Uuid)
    | ChangePolicy(absolute: Time, idle: Time)

  /** The transaction commits rather than failing. */
  predicate Effective(t: Tables, e: Event) {
    match e
    case AddUser(user, _, _) => user !in t.users
    case ChangeProfile(user, _) => user in t.users
    case CreateSession(user, id, _, _) => Active(t, user) && id !in t.sessions
    case Touch(id, _) => id in t.sessions
    case Record(browser, sid, now, idle) => MayRecord(t, browser, sid, now, idle)
    case Revoke(_, _) => true
    case RevokeUser(user, _) => Active(t, user)
    case Disable(user, _) => user in t.users && !t.users[user].isValidation
    case Enable(user) => user in t.users
    case ChangePolicy(_, _) => true
  }

  function Step(t: Tables, e: Event): Tables {
    if !Effective(t, e) then t
    else match e
      case AddUser(user, profile, isValidation) => t.(users := t.users[user := User(profile, None, isValidation)])
      case ChangeProfile(user, profile) => t.(users := t.users[user := t.users[user].(profile := profile)])
      case CreateSession(user, id, lifetime, now) => t.(sessions := t.sessions[id := Browser(user, now, now, now + lifetime, None)])
      case Touch(id, now) => t.(sessions := t.sessions[id := t.sessions[id].(lastSeen := now)])
      case Record(browser, sid, now, _) => t.(links := t.links[sid := Link(browser, now)])
      case Revoke(ids, now) => RevokeAll(t, ids, now)
      case RevokeUser(user, now) => RevokeAll(t, UnrevokedOf(t, user), now)
      case Disable(user, now) =>
        var ended := RevokeAll(t, UnrevokedOf(t, user), now);
        var at := if t.users[user].disabledAt.Some? then t.users[user].disabledAt else Some(now);
        ended.(users := t.users[user := t.users[user].(disabledAt := at)])
      case Enable(user) => t.(users := t.users[user := t.users[user].(disabledAt := None)])
      case ChangePolicy(absolute, idle) => UpdatePolicy(t, absolute, idle)
  }

  function Exec(t: Tables, events: seq<Event>): Tables {
    if events == [] then t
    else Step(Exec(t, events[..|events| - 1]), events[|events| - 1])
  }
}
