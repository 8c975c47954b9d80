/** The gateway's bounded sweeps cannot be noticed from outside. */
module GatewaySweeps {
  import opened Common
  import opened GatewayTables

  /** The same request made of a store that never deletes a row. */
  function Unswept(e: Event): Event {
    match e
    case Create(token, session, now, _) => Create(token, session, now, NOTHING)
    case FrontLogout(sid, now, _) => FrontLogout(sid, now, NOTHING)
    case BackLogout(sid, jti, expiresAt, now, _) => BackLogout(sid, jti, expiresAt, now, NOTHING)
    case RevokeBrowser(_, _) => e
    case OtherApplication(now, _) => OtherApplication(now, NOTHING)
  }

  function UnsweptAll(events: seq<Event>): (r: seq<Event>)
    ensures |r| == |events| && forall i :: 0 <= i < |r| ==> r[i] == Unswept(events[i])
  {
    seq(|events|, i requires 0 <= i < |events| => Unswept(events[i]))
  }

  // ---------------------------------------------------------------- the relation

  ghost predicate SessionsMatch(swept: map<TokenHash, Session>, full: map<TokenHash, Session>, clock: Time) {
    && (forall k :: k in swept ==> k in full && swept[k] == full[k])
    && (forall k :: k in full && k !in swept ==> !InForce(full[k], clock))
  }

  /** A swept tombstone that is dug again has a later creation time, and the same expiry. */
  ghost predicate TombstonesMatch(swept: map<string, Tombstone>, full: map<string, Tombstone>, clock: Time) {
    && (forall k :: k in swept ==> k in full && swept[k].expiresAt == full[k].expiresAt)
    && (forall k :: k in full && k !in swept ==> full[k].expiresAt <= clock)
  }

  ghost predicate TokensMatch(swept: map<string, Time>, full: map<string, Time>, clock: Time) {
    && (forall k :: k in swept ==> k in full && swept[k] == full[k])
    && (forall k :: k in full && k !in swept ==> full[k] <= clock)
  }

  ghost predicate Matches(swept: Tables, full: Tables, clock: Time) {
    && SessionsMatch(swept.sessions, full.sessions, clock)
    && TombstonesMatch(swept.tombstones, full.tombstones, clock)
    && TokensMatch(swept.tokens, full.tokens, clock)
  }

  /** Browser tokens are fresh, and a logout token seen before is presented before its recorded expiry. */
  ghost predicate Ordinary(full: Tables, e: Event) {
    && (e.Create? ==> e.token !in full.sessions)
    && (e.BackLogout? && e.jti in full.tokens ==> e.now < full.tokens[e.jti])
  }

  // ---------------------------------------------------------------- one request

  lemma SweepingKeepsMatch(a: Tables, b: Tables, swept: Swept, clock: Time, now: Time)
    requires Matches(a, b, clock) && clock <= now && Sweepable(a, swept, now)
    ensures Matches(Sweep(a, swept), b, now)
  {
  }

  lemma BuryingKeepsMatch(a: Tables, b: Tables, sid: string, now: Time)
    requires Matches(a, b, now)
    ensures Matches(Bury(a, sid, now), Bury(b, sid, now), now)
  {
  }

  lemma RevokingKeepsMatch(a: Tables, b: Tables, sid: string, now: Time)
    requires Matches(a, b, now)
    ensures Matches(RevokeSid(a, sid, now), RevokeSid(b, sid, now), now)
  {
  }

  lemma SweepingNothing(b: Tables)
    ensures Sweep(b, NOTHING) == b
  {
  }

  lemma NothingFits(b: Tables, e: Event)
    ensures SweepFits(b, Unswept(e))
  {
  }

  lemma CreatingKeepsMatch(a: Tables, b: Tables, e: Event, clock: Time)
    requires Matches(a, b, clock) && clock <= e.now && SweepFits(a, e) && e.Create?
    requires Accepts(a, e) && Accepts(b, Unswept(e))
    ensures Matches(Step(a, e), Step(b, Unswept(e)), e.now)
  {
    SweepingNothing(b);
    NothingFits(b, e);
    SweepingKeepsMatch(a, b, e.swept, clock, e.now);
  }

  lemma RevokingOneKeepsMatch(a: Tables, b: Tables, e: Event, clock: Time)
    requires Matches(a, b, clock) && clock <= e.now && e.RevokeBrowser?
    ensures Matches(Step(a, e), Step(b, e), e.now)
  {
  }

  lemma FrontLogoutKeepsMatch(a: Tables, b: Tables, e: Event, clock: Time)
    requires Matches(a, b, clock) && clock <= e.now && SweepFits(a, e) && e.FrontLogout?
    requires Accepts(a, e) && Accepts(b, Unswept(e))
    ensures Matches(Step(a, e), Step(b, Unswept(e)), e.now)
  {
    SweepingNothing(b);
    NothingFits(b, e);
    var FrontLogout(sid, now, swept) := e;
    SweepingKeepsMatch(a, b, swept, clock, now);
    BuryingKeepsMatch(Sweep(a, swept), b, sid, now);
    RevokingKeepsMatch(Bury(Sweep(a, swept), sid, now), Bury(b, sid, now), sid, now);
  }

  lemma BackLogoutKeepsMatch(a: Tables, b: Tables, e: Event, clock: Time)
    requires Matches(a, b, clock) && clock <= e.now && SweepFits(a, e) && e.BackLogout?
    requires Accepts(a, e) && Accepts(b, Unswept(e))
    ensures Matches(Step(a, e), Step(b, Unswept(e)), e.now)
  {
    SweepingNothing(b);
    NothingFits(b, e);
    var BackLogout(sid, jti, expiresAt, now, swept) := e;
    SweepingKeepsMatch(a, b, swept, clock, now);
    var a1 := Sweep(a, swept).(tokens := Sweep(a, swept).tokens[jti := expiresAt]);
    var b1 := b.(tokens := b.tokens[jti := expiresAt]);
    assert Matches(a1, b1, now);
    BuryingKeepsMatch(a1, b1, sid, now);
    RevokingKeepsMatch(Bury(a1, sid, now), Bury(b1, sid, now), sid, now);
  }

  lemma AcceptedStepKeepsMatch(a: Tables, b: Tables, e: Event, clock: Time)
    requires Matches(a, b, clock) && clock <= e.now && SweepFits(a, e) && Ordinary(b, e)
    requires Accepts(a, e) && Accepts(b, Unswept(e))
    ensures Matches(Step(a, e), Step(b, Unswept(e)), e.now)
  {
    match e
    case Create(_, _, _, _) =>
      CreatingKeepsMatch(a, b, e, clock);
    case FrontLogout(_, _, _) =>
      FrontLogoutKeepsMatch(a, b, e, clock);
    case BackLogout(_, _, _, _, _) =>
      BackLogoutKeepsMatch(a, b, e, clock);
    case RevokeBrowser(_, _) =>
      RevokingOneKeepsMatch(a, b, e, clock);
    case OtherApplication(now, swept) =>
      SweepingNothing(b);
      SweepingKeepsMatch(a, b, swept, clock, now);
  }

  lemma StepKeepsMatch(a: Tables, b: Tables, e: Event, clock: Time)
    requires Matches(a, b, clock) && clock <= e.now && SweepFits(a, e) && Ordinary(b, e)
    ensures Accepts(a, e) <==> Accepts(b, Unswept(e))
    ensures Matches(Step(a, e), Step(b, Unswept(e)), e.now)
  {
    if Accepts(a, e) {
      AcceptedStepKeepsMatch(a, b, e, clock);
    }
  }

  // ---------------------------------------------------------------- whole histories

  /** A history of one store: each sweep is one the store could make, and each request is ordinary. */
  ghost predicate History(events: seq<Event>) {
    && Timely(events, 0)
    && forall i :: 0 <= i < |events| ==> ProperAt(events, i)
  }

  ghost predicate ProperAt(events: seq<Event>, i: nat)
    requires i < |events|
  {
    SweepFits(Exec(BLANK, events[..i]), events[i]) && Ordinary(Exec(BLANK, UnsweptAll(events)[..i]), events[i])
  }

  const BLANK := Tables(map[], map[], map[])

  function Clock(events: seq<Event>): Time { if events == [] then 0 else events[|events| - 1].now }

  lemma {:induction false} HistoriesMatch(events: seq<Event>)
    requires History(events)
    ensures Matches(Exec(BLANK, events), Exec(BLANK, UnsweptAll(events)), Clock(events))
    decreases |events|
  {
    if events != [] {
      var n := |events| - 1;
      HistoryPrefix(events, n);
      HistoriesMatch(events[..n]);
      assert UnsweptAll(events)[..n] == UnsweptAll(events[..n]) && ProperAt(events, n);
      StepKeepsMatch(Exec(BLANK, events[..n]), Exec(BLANK, UnsweptAll(events[..n])), events[n], Clock(events[..n]));
    }
  }

  lemma HistoryPrefix(events: seq<Event>, n: nat)
    requires History(events) && n <= |events|
    ensures History(events[..n])
  {
    forall i: nat | i < n
      ensures ProperAt(events[..n], i)
    {
      assert ProperAt(events, i);
      assert events[..n][..i] == events[..i];
      assert UnsweptAll(events[..n])[..i] == UnsweptAll(events)[..i];
    }
  }

  /** At every point of every history, the store that sweeps finds the same session behind
      every cookie, and accepts or refuses the next request alike. */
  lemma SweepsAreInvisible(events: seq<Event>, i: nat, token: TokenHash, now: Time)
    requires History(events) && i <= |events| && now >= Clock(events[..i])
    ensures var swept, full := Exec(BLANK, events[..i]), Exec(BLANK, UnsweptAll(events)[..i]);
      && Find(swept, token, now) == Find(full, token, now)
      && (i < |events| ==> (Accepts(swept, events[i]) <==> Accepts(full, UnsweptAll(events)[i])))
  {
    HistoryPrefix(events, i);
    HistoriesMatch(events[..i]);
    assert UnsweptAll(events)[..i] == UnsweptAll(events[..i]);
    if i < |events| {
      assert ProperAt(events, i);
      StepKeepsMatch(Exec(BLANK, events[..i]), Exec(BLANK, UnsweptAll(events)[..i]), events[i], Clock(events[..i]));
    }
  }

  // ---------------------------------------------------------------- logout tokens are spent once

  lemma {:induction false} HistoryKeepsSpent(t: Tables, events: seq<Event>, jti: string, expiresAt: Time)
    requires jti in t.tokens && t.tokens[jti] == expiresAt
    requires forall i :: 0 <= i < |events| ==> events[i].now < expiresAt
    ensures var u := Exec(t, events); jti in u.tokens && u.tokens[jti] == expiresAt
    decreases |events|
  {
    if events != [] {
      var n := |events| - 1;
      HistoryKeepsSpent(t, events[..n], jti, expiresAt);
    }
  }

  /** From any tables and for any sweeps, a logout token accepted once is refused whenever
      it comes back before its expiry. */
  lemma LogoutTokenIsAcceptedOnce(t: Tables, first: Event, between: seq<Event>, again: Event)
    requires first.BackLogout? && SweepFits(t, first) && Accepts(t, first)
    requires again.BackLogout? && again.jti == first.jti && again.now < first.expiresAt
    requires Timely([first] + between + [again], first.now)
    requires SweepFits(Exec(Step(t, first), between), again)
    ensures !Accepts(Exec(Step(t, first), between), again)
  {
    var all := [first] + between + [again];
    forall i | 0 <= i < |between|
      ensures between[i].now < first.expiresAt
    {
      assert all[i + 1] == between[i] && all[|all| - 1] == again;
    }
    HistoryKeepsSpent(Step(t, first), between, first.jti, first.expiresAt);
  }

  // ---------------------------------------------------------------- the server's own checks

  /** What a verified logout token claims; times in whole seconds, zero when absent. */
  datatype LogoutClaims = LogoutClaims(sid: string, jti: string, issuedAt: int, expiresAt: int, hasNonce: bool, hasLogoutEvent: bool)

  /** The checks the back-channel endpoint makes at `now` before it touches the store. */
  predicate ClaimsPass(c: LogoutClaims, now: Time) {
    && c.sid != "" && c.jti != "" && c.issuedAt != 0 && c.expiresAt != 0 && !c.hasNonce
    && c.hasLogoutEvent
    && -5 * SECOND <= now - c.issuedAt * SECOND <= 5 * MINUTE
    && !(c.expiresAt * SECOND < now)
  }

  /** The store request one back-channel call makes, with the clock read again. */
  function LogoutRequest(c: LogoutClaims, now: Time, swept: Swept): Event {
    BackLogout(c.sid, c.jti, c.expiresAt * SECOND, now, swept)
  }

  /** One token gets through the endpoint twice only when its second call is checked no
      later than its expiry and stored no earlier. */
  lemma ReplayOnlyAtExpiry(t: Tables, c: LogoutClaims, first: Time, swept: Swept, between: seq<Event>, checked: Time, again: Time, swept': Swept)
    requires SweepFits(t, LogoutRequest(c, first, swept)) && Accepts(t, LogoutRequest(c, first, swept))
    requires checked <= again && ClaimsPass(c, checked)
    requires Timely([LogoutRequest(c, first, swept)] + between + [LogoutRequest(c, again, swept')], first)
    requires var u := Exec(Step(t, LogoutRequest(c, first, swept)), between);
      SweepFits(u, LogoutRequest(c, again, swept')) && Accepts(u, LogoutRequest(c, again, swept'))
    ensures checked <= c.expiresAt * SECOND <= again
  {
    if again < c.expiresAt * SECOND {
      LogoutTokenIsAcceptedOnce(t, LogoutRequest(c, first, swept), between, LogoutRequest(c, again, swept'));
    }
  }

  /** Requests that name this token identifier carry this token. */
  ghost predicate SameToken(events: seq<Event>, jti: string, expiresAt: Time) {
    forall i :: 0 <= i < |events| && events[i].BackLogout? && events[i].jti == jti ==> events[i].expiresAt == expiresAt
  }

  /** A spent token's record keeps its expiry, and is gone only once that has passed. */
  ghost predicate RecordedOrExpired(t: Tables, jti: string, expiresAt: Time, now: Time) {
    if jti in t.tokens then t.tokens[jti] == expiresAt else expiresAt <= now
  }

  lemma {:induction false} HistoryKeepsRecord(t: Tables, events: seq<Event>, jti: string, expiresAt: Time, now: Time)
    requires RecordedOrExpired(t, jti, expiresAt, now) && SameToken(events, jti, expiresAt)
    requires forall i :: 0 <= i < |events| ==> events[i].now <= now
    ensures RecordedOrExpired(Exec(t, events), jti, expiresAt, now)
    decreases |events|
  {
    if events != [] {
      HistoryKeepsRecord(t, events[..|events| - 1], jti, expiresAt, now);
    }
  }

  /** A whole batch of at most the limit is every expired record. */
  lemma WholeBatchTakesAll(t: Tables, swept: Swept, now: Time)
    requires swept.tokens <= ExpiredTokens(t, now) && TakesTokenBatch(t, swept, now) && |ExpiredTokens(t, now)| <= SWEEP_LIMIT
    ensures swept.tokens == ExpiredTokens(t, now)
  {
    if swept.tokens != ExpiredTokens(t, now) {
      SubsetIsNoLarger(swept.tokens, ExpiredTokens(t, now));
    }
  }

  /** Exactly when the store accepts a token a second time. With the sweep the store makes,
      and no more expired records than one batch holds, the repeated request is accepted if
      and only if it is stored at the token's expiry or later, whatever came between. */
  lemma ReplayAcceptedIffExpired(t: Tables, c: LogoutClaims, first: Time, swept: Swept, between: seq<Event>, again: Time, swept': Swept)
    requires SweepFits(t, LogoutRequest(c, first, swept)) && Accepts(t, LogoutRequest(c, first, swept))
    requires Timely([LogoutRequest(c, first, swept)] + between + [LogoutRequest(c, again, swept')], first)
    requires SameToken(between, c.jti, c.expiresAt * SECOND)
    requires var u := Exec(Step(t, LogoutRequest(c, first, swept)), between);
      && SweepFits(u, LogoutRequest(c, again, swept'))
      && TakesTokenBatch(u, swept', again) && |ExpiredTokens(u, again)| <= SWEEP_LIMIT
    ensures Accepts(Exec(Step(t, LogoutRequest(c, first, swept)), between), LogoutRequest(c, again, swept'))
      <==> c.expiresAt * SECOND <= again
  {
    var all := [LogoutRequest(c, first, swept)] + between + [LogoutRequest(c, again, swept')];
    forall i | 0 <= i < |between|
      ensures between[i].now <= again
    {
      assert all[i + 1] == between[i] && all[|all| - 1] == LogoutRequest(c, again, swept');
    }
    var u := Exec(Step(t, LogoutRequest(c, first, swept)), between);
    HistoryKeepsRecord(Step(t, LogoutRequest(c, first, swept)), between, c.jti, c.expiresAt * SECOND, again);
    WholeBatchTakesAll(u, swept', again);
  }

  /** So the endpoint lets a token through twice exactly when its second call is checked no
      later than the expiry, and otherwise validly, and stored no earlier. */
  lemma ReplayPassesIff(t: Tables, c: LogoutClaims, first: Time, swept: Swept, between: seq<Event>, checked: Time, again: Time, swept': Swept)
    requires SweepFits(t, LogoutRequest(c, first, swept)) && Accepts(t, LogoutRequest(c, first, swept)) && checked <= again
    requires Timely([LogoutRequest(c, first, swept)] + between + [LogoutRequest(c, again, swept')], first)
    requires SameToken(between, c.jti, c.expiresAt * SECOND)
    requires var u := Exec(Step(t, LogoutRequest(c, first, swept)), between);
      && SweepFits(u, LogoutRequest(c, again, swept'))
      && TakesTokenBatch(u, swept', again) && |ExpiredTokens(u, again)| <= SWEEP_LIMIT
    ensures ClaimsPass(c, checked) && Accepts(Exec(Step(t, LogoutRequest(c, first, swept)), between), LogoutRequest(c, again, swept'))
      <==>
      && c.sid != "" && c.jti != "" && c.issuedAt != 0 && c.expiresAt != 0 && !c.hasNonce && c.hasLogoutEvent
      && c.issuedAt * SECOND - 5 * SECOND <= checked <= c.issuedAt * SECOND + 5 * MINUTE
      && checked <= c.expiresAt * SECOND <= again
  {
    ReplayAcceptedIffExpired(t, c, first, swept, between, again, swept');
  }

  /** At the expiry instant the endpoint still admits the token while the sweep may already
      have dropped its record, so the replay is accepted. */
  lemma ReplayAtExpiryInstant(c: LogoutClaims, now: Time)
    requires ClaimsPass(c, now) && now == c.expiresAt * SECOND
    ensures var first := LogoutRequest(c, now - 1, NOTHING);
      var replay := LogoutRequest(c, now, Swept({}, {}, {c.jti}));
      && SweepFits(BLANK, first) && Accepts(BLANK, first)
      && SweepFits(Step(BLANK, first), replay) && Accepts(Step(BLANK, first), replay)
  {
  }
}
