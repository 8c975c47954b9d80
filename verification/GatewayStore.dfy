/** The gateway's session store: each method is one transaction under the provider session's lock. */
module GatewayStore {
  import opened Common
  import opened GatewayTables
  import GatewayColumns

  /** LIMIT without an order: any batch, as large as the limit allows. */
  method Batch<K(==)>(ids: set<K>, limit: nat) returns (batch: set<K>)
    ensures batch <= ids && |batch| <= limit && (batch == ids || |batch| == limit)
  {
    batch := {};
    var left := ids;
    while left != {} && |batch| < limit
      invariant batch !! left && batch + left == ids && |batch| <= limit
      decreases |left|
    {
      var id :| id in left;
      batch, left := batch + {id}, left - {id};
    }
  }

  method OldestTombstone(rows: map<string, Tombstone>, ids: set<string>) returns (oldest: string)
    requires ids != {} && ids <= rows.Keys
    ensures oldest in ids && forall x :: x in ids ==> rows[oldest].expiresAt <= rows[x].expiresAt
  {
    oldest :| oldest in ids;
    var todo := ids - {oldest};
    while todo != {}
      invariant todo <= ids && oldest in ids
      invariant forall x :: x in ids - todo ==> rows[oldest].expiresAt <= rows[x].expiresAt
      decreases |todo|
    {
      var id :| id in todo;
      if rows[id].expiresAt < rows[oldest].expiresAt {
        oldest := id;
      }
      todo := todo - {id};
    }
  }

  /** The expired tombstones one sweep removes: those that expired first, up to the limit. */
  method ExpiredBatch(t: Tables, now: Time) returns (batch: set<string>)
    ensures batch <= ExpiredTombstones(t, now) && |batch| <= TOMBSTONE_SWEEP_LIMIT
    ensures batch == ExpiredTombstones(t, now) || |batch| == TOMBSTONE_SWEEP_LIMIT
    ensures forall a, b :: a in batch && b in ExpiredTombstones(t, now) - batch ==> t.tombstones[a].expiresAt <= t.tombstones[b].expiresAt
  {
    batch := {};
    var left := ExpiredTombstones(t, now);
    while left != {} && |batch| < TOMBSTONE_SWEEP_LIMIT
      invariant batch !! left && batch + left == ExpiredTombstones(t, now) && |batch| <= TOMBSTONE_SWEEP_LIMIT
      invariant forall a, b :: a in batch && b in left ==> t.tombstones[a].expiresAt <= t.tombstones[b].expiresAt
      decreases |left|
    {
      var id := OldestTombstone(t.tombstones, left);
      batch, left := batch + {id}, left - {id};
    }
    assert ExpiredTombstones(t, now) - batch == left;
  }

  class Store {
    var sessions: map<TokenHash, Session>
    var tombstones: map<string, Tombstone>
    var tokens: map<string, Time>

    function Value(): Tables
      reads this
    {
      Tables(sessions, tombstones, tokens)
    }

    method Create(token: TokenHash, session: Session, now: Time) returns (ok: bool, ghost swept: Swept)
      modifies this
      ensures SweepFits(old(Value()), Event.Create(token, session, now, swept))
      ensures session.sid != "" ==> TakesTokenBatch(old(Value()), swept, now)
      ensures session.sid != "" ==> GatewayColumns.TakesTokens(old(Value()), swept.tokens, now)
      ensures session.sid != "" ==> GatewayColumns.TakesTombstones(old(Value()), swept.tombstones, now)
      ensures session.sid != "" ==> GatewayColumns.TakesSessions(old(Value()), swept.sessions, now)
      ensures ok == Accepts(old(Value()), Event.Create(token, session, now, swept))
      ensures Value() == Step(old(Value()), Event.Create(token, session, now, swept))
      ensures ok == !GatewayColumns.Refuses(old(Value()), Event.Create(token, session, now, swept))
      ensures if ok then GatewayColumns.Does(old(Value()), Event.Create(token, session, now, swept), Value()) else Value() == old(Value())
    {
      swept := NOTHING;
      if session.sid == "" {
        return false, swept;
      }
      var before := Value();
      var expired := ExpiredBatch(before, now);
      var ended := Batch(EndedSessions(before, now), SWEEP_LIMIT);
      var spent := Batch(ExpiredTokens(before, now), SWEEP_LIMIT);
      swept := Swept(expired, ended, spent);
      tombstones, sessions, tokens := tombstones - expired, sessions - ended, tokens - spent;
      if (session.sid in tombstones && tombstones[session.sid].expiresAt > now) || token in sessions {
        Restore(before);
        return false, swept;
      }
      sessions := sessions[token := session.(createdAt := now, revokedAt := None)];
      return true, swept;
    }

    /** Roll the transaction back. */
    method Restore(before: Tables)
      modifies this
      ensures Value() == before
    {
      sessions, tombstones, tokens := before.sessions, before.tombstones, before.tokens;
    }

    /** The session in force behind a cookie. `opens` tells which rows this gateway can
        decrypt; one it cannot is no session at all. */
    method FindSession(token: TokenHash, now: Time, opens: Session -> bool) returns (found: Option<Session>)
      ensures var row := Find(Value(), token, now);
        found == if row.Some? && opens(row.value) then row else None
      ensures found.Some? <==>
        token in sessions && sessions[token].revokedAt == None && now < sessions[token].expiresAt && opens(sessions[token])
      ensures found.Some? ==> found.value == sessions[token]
    {
      if token !in sessions || sessions[token].revokedAt.Some? || sessions[token].expiresAt <= now {
        return None;
      }
      if !opens(sessions[token]) {
        return None;
      }
      return Some(sessions[token]);
    }

    method RevokeToken(token: TokenHash, now: Time)
      modifies this`sessions
      ensures Value() == Step(old(Value()), RevokeBrowser(token, now))
      ensures GatewayColumns.RevokesOne(old(Value()), Value(), token, now)
    {
      if token in sessions && sessions[token].revokedAt.None? {
        sessions := sessions[token := sessions[token].(revokedAt := Some(now))];
      }
    }

    /** Drop expired tombstones, then insert this one or extend the one already there. */
    method RecordLogoutTombstone(sid: string, now: Time) returns (ghost expired: set<string>)
      modifies this`tombstones
      ensures Sweepable(old(Value()), Swept(expired, {}, {}), now)
      ensures Value() == Bury(Sweep(old(Value()), Swept(expired, {}, {})), sid, now)
      ensures GatewayColumns.Tombstones(old(Value()), Value(), expired, sid, now)
      ensures GatewayColumns.TakesTombstones(old(Value()), expired, now)
    {
      var batch := ExpiredBatch(Value(), now);
      expired := batch;
      tombstones := tombstones - batch;
      var created, expiry := now, now + TOMBSTONE_LIFETIME;
      if sid in tombstones {
        if tombstones[sid].createdAt < created {
          created := tombstones[sid].createdAt;
        }
        if expiry < tombstones[sid].expiresAt {
          expiry := tombstones[sid].expiresAt;
        }
      }
      tombstones := tombstones[sid := Tombstone(created, expiry)];
      assert sessions - {} == sessions && tokens - {} == tokens;
    }

    /** UPDATE ... SET revoked_at for every unrevoked session of the provider session. */
    method RevokeSessions(sid: string, now: Time)
      modifies this`sessions
      ensures Value() == RevokeSid(old(Value()), sid, now)
      ensures GatewayColumns.RevokesAll(old(Value()), Value(), sid, now)
    {
      var todo := sessions.Keys;
      ghost var was := sessions;
      while todo != {}
        invariant todo <= sessions.Keys == was.Keys
        invariant forall k :: k in sessions ==>
          sessions[k] == if k in todo then was[k] else RevokeSid(old(Value()), sid, now).sessions[k]
        decreases |todo|
      {
        var k :| k in todo;
        if sessions[k].sid == sid && sessions[k].revokedAt.None? {
          sessions := sessions[k := sessions[k].(revokedAt := Some(now))];
        }
        todo := todo - {k};
      }
    }

    method RevokeFrontchannelSession(sid: string, now: Time) returns (ok: bool, ghost swept: Swept)
      modifies this
      ensures SweepFits(old(Value()), FrontLogout(sid, now, swept))
      ensures ok == Accepts(old(Value()), FrontLogout(sid, now, swept))
      ensures Value() == Step(old(Value()), FrontLogout(sid, now, swept))
      ensures ok == !GatewayColumns.Refuses(old(Value()), FrontLogout(sid, now, swept))
      ensures ok ==> GatewayColumns.TakesTombstones(old(Value()), swept.tombstones, now)
      ensures if ok then GatewayColumns.Does(old(Value()), FrontLogout(sid, now, swept), Value()) else Value() == old(Value())
    {
      swept := NOTHING;
      if sid == "" {
        return false, swept;
      }
      ghost var expired := RecordLogoutTombstone(sid, now);
      swept := Swept(expired, {}, {});
      RevokeSessions(sid, now);
      return true, swept;
    }

    method RevokeProviderSession(sid: string, jti: string, expiresAt: Time, now: Time) returns (ok: bool, ghost swept: Swept)
      modifies this
      ensures SweepFits(old(Value()), BackLogout(sid, jti, expiresAt, now, swept))
      ensures sid != "" ==> TakesTokenBatch(old(Value()), swept, now)
      ensures ok == Accepts(old(Value()), BackLogout(sid, jti, expiresAt, now, swept))
      ensures Value() == Step(old(Value()), BackLogout(sid, jti, expiresAt, now, swept))
      ensures ok == !GatewayColumns.Refuses(old(Value()), BackLogout(sid, jti, expiresAt, now, swept))
      ensures ok ==> GatewayColumns.TakesTombstones(old(Value()), swept.tombstones, now)
      ensures sid != "" ==> GatewayColumns.TakesTokens(old(Value()), swept.tokens, now)
      ensures if ok then GatewayColumns.Does(old(Value()), BackLogout(sid, jti, expiresAt, now, swept), Value()) else Value() == old(Value())
    {
      swept := NOTHING;
      if sid == "" {
        return false, swept;
      }
      var before := Value();
      var spent := Batch(ExpiredTokens(before, now), SWEEP_LIMIT);
      swept := Swept({}, {}, spent);
      tokens := tokens - spent;
      if jti in tokens {
        Restore(before);
        return false, swept;
      }
      tokens := tokens[jti := expiresAt];
      ghost var expired := RecordLogoutTombstone(sid, now);
      swept := Swept(expired, {}, spent);
      RevokeSessions(sid, now);
      return true, swept;
    }
  }

}
