/** Logout wins every race with a sign-in at the gateway. */
module GatewayLogout {
  import opened Common
  import opened GatewayTables

  // ---------------------------------------------------------------- the tombstone holds

  /** No session of this provider session is unrevoked, and none can be stored before `until`. */
  ghost predicate Quiet(t: Tables, sid: string, until: Time) {
    && sid in t.tombstones && t.tombstones[sid].expiresAt >= until
    && (forall k :: k in t.sessions && t.sessions[k].sid == sid ==> t.sessions[k].revokedAt.Some?)
  }

  predicate IsLogoutOf(e: Event, sid: string) {
    (e.FrontLogout? || e.BackLogout?) && e.sid == sid
  }

  lemma StepKeepsQuiet(t: Tables, e: Event, sid: string, until: Time)
    requires Quiet(t, sid, until) && e.now < until
    ensures Quiet(Step(t, e), sid, until)
  {
  }

  lemma {:induction false} HistoryKeepsQuiet(t: Tables, events: seq<Event>, sid: string, until: Time)
    requires Quiet(t, sid, until) && forall i :: 0 <= i < |events| ==> events[i].now < until
    ensures Quiet(Exec(t, events), sid, until)
    decreases |events|
  {
    if events != [] {
      HistoryKeepsQuiet(t, events[..|events| - 1], sid, until);
      StepKeepsQuiet(Exec(t, events[..|events| - 1]), events[|events| - 1], sid, until);
    }
  }

  /** After a successful logout at t, whatever requests follow before t plus twenty
      minutes, no cookie finds a session of that provider session. */
  lemma NoSessionWithinTwentyMinutes(t: Tables, e: Event, sid: string, events: seq<Event>, token: TokenHash, now: Time)
    requires IsLogoutOf(e, sid) && SweepFits(t, e) && Accepts(t, e)
    requires forall i :: 0 <= i < |events| ==> events[i].now < e.now + TOMBSTONE_LIFETIME
    ensures var found := Find(Exec(Step(t, e), events), token, now); found.Some? ==> found.value.sid != sid
  {
    HistoryKeepsQuiet(Step(t, e), events, sid, e.now + TOMBSTONE_LIFETIME);
  }

  // ---------------------------------------------------------------- sign-ins and their clocks

  const TRANSACTION_LIFETIME: Time := 10 * MINUTE

  /** time.Time.Unix: whole seconds. */
  function Unix(now: Time): int { now / SECOND }

  /** A sign-in: when it began, the expiry sealed into its cookie, and when a callback of it
      last passed the expiry check; a callback may be presented again. */
  datatype SignIn = SignIn(begunAt: Time, expiresUnix: int, checkedAt: Option<Time>)

  /** The server: its tables, the sign-ins, which sign-in stored each session, and the
      logouts that succeeded. */
  datatype Server = Server(
    tables: Tables, signIns: map<nat, SignIn>, storedBy: map<TokenHash, nat>, logouts: set<(string, Time)>, clock: Time)

  datatype Action =
    | Login(a: nat, now: Time)
    | CheckCallback(a: nat, now: Time)
    | StoreSession(a: nat, token: TokenHash, session: Session, now: Time, swept: Swept)
    | Other(e: Event)

  function When(action: Action): Time {
    match action
    case Login(_, now) => now
    case CheckCallback(_, now) => now
    case StoreSession(_, _, _, now, _) => now
    case Other(e) => e.now
  }

  /** Time moves on, a login is a new transaction, a session is stored only by a callback
      that passed its check, at most `grace` after it, and with a fresh browser token. */
  predicate Possible(s: Server, action: Action, grace: Time) {
    && When(action) >= s.clock
    && match action
       case Login(a, _) => a !in s.signIns
       case CheckCallback(a, now) => a in s.signIns && s.signIns[a].expiresUnix > Unix(now)
       case StoreSession(a, token, _, now, _) =>
         a in s.signIns && s.signIns[a].checkedAt.Some? && now <= s.signIns[a].checkedAt.value + grace && token !in s.storedBy
       case Other(e) => !e.Create?
  }

  function Serve(s: Server, action: Action, grace: Time): Server {
    if !Possible(s, action, grace) then s
    else match action
      case Login(a, now) => s.(signIns := s.signIns[a := SignIn(now, Unix(now + TRANSACTION_LIFETIME), None)], clock := now)
      case CheckCallback(a, now) => s.(signIns := s.signIns[a := s.signIns[a].(checkedAt := Some(now))], clock := now)
      case StoreSession(a, token, session, now, swept) =>
        var e := Create(token, session, now, swept);
        if SweepFits(s.tables, e) && Accepts(s.tables, e)
        then s.(tables := Step(s.tables, e), storedBy := s.storedBy[token := a], clock := now)
        else s.(clock := now)
      case Other(e) =>
        var accepted := SweepFits(s.tables, e) && Accepts(s.tables, e) && (e.FrontLogout? || e.BackLogout?);
        s.(tables := Step(s.tables, e), clock := e.now, logouts := if accepted then s.logouts + {(e.sid, e.now)} else s.logouts)
  }

  function Served(s: Server, actions: seq<Action>, grace: Time): Server {
    if actions == [] then s
    else Serve(Served(s, actions[..|actions| - 1], grace), actions[|actions| - 1], grace)
  }

  const START := Server(Tables(map[], map[], map[]), map[], map[], {}, 0)

  /** A check that passed did so less than ten minutes after the sign-in began. */
  ghost predicate ChecksInTime(s: Server) {
    forall a :: a in s.signIns ==>
      && s.signIns[a].expiresUnix == Unix(s.signIns[a].begunAt + TRANSACTION_LIFETIME)
      && (s.signIns[a].checkedAt.Some? ==> s.signIns[a].checkedAt.value < s.signIns[a].begunAt + TRANSACTION_LIFETIME)
  }

  /** Every logout's tombstone is in place until its twenty minutes are over. */
  ghost predicate TombstonesHold(s: Server) {
    forall l :: l in s.logouts ==>
      s.clock >= l.1 + TOMBSTONE_LIFETIME || (l.0 in s.tables.tombstones && s.tables.tombstones[l.0].expiresAt >= l.1 + TOMBSTONE_LIFETIME)
  }

  /** An unrevoked session was stored by a sign-in begun after every logout of its provider session. */
  ghost predicate LogoutsWon(s: Server) {
    && (forall k :: k in s.tables.sessions ==> k in s.storedBy && s.storedBy[k] in s.signIns)
    && (forall k, l :: k in s.tables.sessions && l in s.logouts && s.tables.sessions[k].revokedAt.None? && s.tables.sessions[k].sid == l.0
          ==> s.signIns[s.storedBy[k]].begunAt > l.1)
  }

  lemma ServeKeepsChecks(s: Server, action: Action, grace: Time)
    requires ChecksInTime(s)
    ensures ChecksInTime(Serve(s, action, grace))
  {
  }

  lemma ServeKeepsTombstones(s: Server, action: Action, grace: Time)
    requires TombstonesHold(s)
    ensures TombstonesHold(Serve(s, action, grace))
  {
  }

  lemma StoredSessionIsNewer(s: Server, a: nat, token: TokenHash, session: Session, now: Time, swept: Swept, grace: Time, l: (string, Time))
    requires ChecksInTime(s) && TombstonesHold(s) && grace <= TRANSACTION_LIFETIME
    requires Possible(s, StoreSession(a, token, session, now, swept), grace)
    requires Accepts(s.tables, Create(token, session, now, swept))
    requires l in s.logouts && l.0 == session.sid
    ensures s.signIns[a].begunAt > l.1
  {
    assert now >= l.1 + TOMBSTONE_LIFETIME;
    assert now < s.signIns[a].begunAt + TRANSACTION_LIFETIME + grace;
  }

  lemma OtherKeepsLogoutsWon(s: Server, e: Event, grace: Time)
    requires LogoutsWon(s) && Possible(s, Other(e), grace)
    ensures LogoutsWon(Serve(s, Other(e), grace))
  {
  }

  lemma StoringKeepsLogoutsWon(s: Server, action: Action, grace: Time)
    requires ChecksInTime(s) && TombstonesHold(s) && LogoutsWon(s) && grace <= TRANSACTION_LIFETIME
    requires action.StoreSession? && Possible(s, action, grace)
    requires var e := Create(action.token, action.session, action.now, action.swept); SweepFits(s.tables, e) && Accepts(s.tables, e)
    ensures LogoutsWon(Serve(s, action, grace))
  {
    var StoreSession(a, token, session, now, swept) := action;
    var t := Serve(s, action, grace);
    var kept := s.tables.sessions - swept.sessions;
    assert t.tables.sessions == kept[token := session.(createdAt := now, revokedAt := None)];
    forall l | l in s.logouts && l.0 == session.sid
      ensures s.signIns[a].begunAt > l.1
    {
      StoredSessionIsNewer(s, a, token, session, now, swept, grace, l);
    }
  }

  lemma ServeKeepsLogoutsWon(s: Server, action: Action, grace: Time)
    requires ChecksInTime(s) && TombstonesHold(s) && LogoutsWon(s) && grace <= TRANSACTION_LIFETIME
    ensures LogoutsWon(Serve(s, action, grace))
  {
    if Possible(s, action, grace) {
      match action
      case Login(_, _) =>
      case CheckCallback(_, _) =>
      case StoreSession(_, token, session, now, swept) =>
        if SweepFits(s.tables, Create(token, session, now, swept)) && Accepts(s.tables, Create(token, session, now, swept)) {
          StoringKeepsLogoutsWon(s, action, grace);
        }
      case Other(e) => OtherKeepsLogoutsWon(s, e, grace);
    }
  }

  /** In every run whose callbacks store their session within ten minutes of passing the
      transaction check, a session in force was begun after every logout of its provider
      session: a sign-in begun at or before a logout never survives it. */
  lemma {:induction false} LogoutWinsEveryRace(actions: seq<Action>, grace: Time)
    requires grace <= TRANSACTION_LIFETIME
    ensures var s := Served(START, actions, grace); ChecksInTime(s) && TombstonesHold(s) && LogoutsWon(s)
    decreases |actions|
  {
    if actions != [] {
      var n := |actions| - 1;
      LogoutWinsEveryRace(actions[..n], grace);
      var s := Served(START, actions[..n], grace);
      ServeKeepsChecks(s, actions[n], grace);
      ServeKeepsTombstones(s, actions[n], grace);
      ServeKeepsLogoutsWon(s, actions[n], grace);
    }
  }

  /** The run that defeats any longer grace: a callback passes its check in the last
      millisecond of its transaction and stores its session just after the tombstone of a
      logout made as the sign-in began. */
  function SlowCallback(token: TokenHash, session: Session): seq<Action> {
    [Login(0, 0), Other(FrontLogout(session.sid, 0, NOTHING)), CheckCallback(0, 10 * MINUTE - 1),
     StoreSession(0, token, session, 20 * MINUTE, NOTHING)]
  }

  lemma SlowCallbackOutlivesLogout(token: TokenHash, session: Session, grace: Time)
    requires session.sid != "" && session.expiresAt > 20 * MINUTE && grace > TRANSACTION_LIFETIME
    ensures var s := Served(START, SlowCallback(token, session), grace);
      && (session.sid, 0) in s.logouts
      && token in s.storedBy && s.storedBy[token] in s.signIns && s.signIns[s.storedBy[token]].begunAt == 0
      && Find(s.tables, token, 20 * MINUTE).Some? && s.tables.sessions[token].sid == session.sid
      && !LogoutsWon(s)
  {
    var s1 := Serve(START, Login(0, 0), grace);
    var s2 := LoggedOut(s1, session.sid, grace);
    assert Unix(10 * MINUTE) == 600 && Unix(10 * MINUTE - 1) == 599;
    var s3 := Serve(s2, CheckCallback(0, 10 * MINUTE - 1), grace);
    ServedFour(Login(0, 0), Other(FrontLogout(session.sid, 0, NOTHING)), CheckCallback(0, 10 * MINUTE - 1),
               StoreSession(0, token, session, 20 * MINUTE, NOTHING), grace);
    assert SweepFits(s3.tables, Create(token, session, 20 * MINUTE, NOTHING));
    var s4 := Serve(s3, StoreSession(0, token, session, 20 * MINUTE, NOTHING), grace);
    assert s4.tables.sessions == map[token := session.(createdAt := 20 * MINUTE, revokedAt := None)];
  }

  /** Exactly when logout wins: callbacks that store their session at most `grace` after
      passing the check never leave one that a logout should have ended, in any run, if and
      only if `grace` is at most ten minutes. */
  lemma LogoutWinsIffStoredInTime(grace: Time)
    ensures (forall actions :: LogoutsWon(Served(START, actions, grace))) <==> grace <= TRANSACTION_LIFETIME
  {
    if grace <= TRANSACTION_LIFETIME {
      forall actions
        ensures LogoutsWon(Served(START, actions, grace))
      {
        LogoutWinsEveryRace(actions, grace);
      }
    } else {
      SlowCallbackOutlivesLogout(TokenHash(""), Session("", "s", 0, 21 * MINUTE, None), grace);
    }
  }

  /** A server with no session, just after a logout at moment zero. */
  function LoggedOut(s: Server, sid: string, grace: Time): (r: Server)
    requires s.clock == 0 && s.tables == START.tables && sid != ""
    ensures r.tables.tombstones == map[sid := Tombstone(0, 20 * MINUTE)] && r.tables.sessions == map[]
    ensures r == s.(tables := r.tables, logouts := s.logouts + {(sid, 0)})
  {
    assert SweepFits(s.tables, FrontLogout(sid, 0, NOTHING));
    Serve(s, Other(FrontLogout(sid, 0, NOTHING)), grace)
  }

  lemma ServedFour(a: Action, b: Action, c: Action, d: Action, grace: Time)
    ensures Served(START, [a, b, c, d], grace) == Serve(Serve(Serve(Serve(START, a, grace), b, grace), c, grace), d, grace)
  {
    assert [a, b, c, d][..3] == [a, b, c] && [a, b, c][..2] == [a, b] && [a, b][..1] == [a] && [a][..0] == [];
    assert Served(START, [a], grace) == Serve(START, a, grace);
    assert Served(START, [a, b], grace) == Serve(Serve(START, a, grace), b, grace);
  }
}
