/** The identity store's session and logout methods over their tables. */
module IdentityStore {
  import opened Common
  import opened Accounts
  import opened LogoutGrants
  import opened AccountColumns
  import opened LogoutColumns

  /** Completed before the cutoff, so cleanup may remove it. */
  predicate Disposable(g: Grant, cutoff: Time) {
    g.completedAt.Some? && g.completedAt.value < cutoff
  }

  /** ORDER BY completed_at, id among completed rows. */
  predicate CompletedEarlier(grants: map<Uuid, Grant>, a: Uuid, b: Uuid) {
    && a in grants && b in grants && grants[a].completedAt.Some? && grants[b].completedAt.Some?
    && (grants[a].completedAt.value < grants[b].completedAt.value
        || (grants[a].completedAt.value == grants[b].completedAt.value && TextLess(a.text, b.text)))
  }

  /** Browser tokens are random, so no two stored grants share one. */
  ghost predicate UniqueTokens(grants: map<Uuid, Grant>) {
    forall a, b :: a in grants && b in grants && grants[a].token == grants[b].token ==> a == b
  }

  class Store {
    var users: map<Uuid, User>
    var sessions: map<Uuid, Browser>
    var links: map<Sid, Link>
    var absolute: Time
    var idle: Time
    var grants: map<Uuid, Grant>

    ghost function State(): Tables
      reads this
    {
      Tables(users, sessions, links, absolute, idle)
    }

    /** Insert a session for an active account. `lifetime` is what an earlier read of the
        stored policy, outside this transaction, answered. */
    method CreateSession(user: Uuid, id: Uuid, lifetime: Time, now: Time) returns (ok: bool)
      requires id !in sessions
      modifies this`sessions
      ensures ok == Active(old(State()), user)
      ensures State() == Step(old(State()), Event.CreateSession(user, id, lifetime, now))
      ensures ok <==> user in users && users[user].disabledAt == None
      ensures sessions == if ok then old(sessions)[id := Browser(user, now, now, now + lifetime, None)] else old(sessions)
    {
      var expiry := now + lifetime;
      if user !in users || users[user].disabledAt.Some? {
        return false;
      }
      sessions := sessions[id := Browser(user, now, now, expiry, None)];
      return true;
    }

    /** Insert the correlation, or move it when the browser session it names is stale and
        belongs to the same account. */
    method RecordHydraLoginSession(browser: Uuid, sid: Sid, now: Time) returns (ok: bool)
      requires forall s :: s in links ==> links[s].browser in sessions
      modifies this`links
      ensures ok == MayRecord(old(State()), browser, sid, now, idle)
      ensures State() == Step(old(State()), Record(browser, sid, now, idle))
      ensures ok <==> !Refuses(old(State()), Record(browser, sid, now, idle))
      ensures links == if ok then old(links)[sid := Link(browser, now)] else old(links)
    {
      RefusesIffNotEffective(State(), Record(browser, sid, now, idle));
      var cutoff := now - idle;
      if sid.text == "" || browser !in sessions {
        return false;
      }
      var user := sessions[browser].user;
      if user !in users || users[user].disabledAt.Some? {
        return false;
      }
      var row := sessions[browser];
      if row.revokedAt.Some? || !(row.expiresAt > now) || !(row.lastSeen > cutoff) {
        return false;
      }
      if sid !in links {
        links := links[sid := Link(browser, now)];
        return true;
      }
      var existing := sessions[links[sid].browser];
      var sameBrowser := links[sid].browser == browser;
      var staleSameUserBrowser := existing.user == user
        && (existing.revokedAt.Some? || !(existing.expiresAt > now) || !(existing.lastSeen > cutoff));
      if !sameBrowser && !staleSameUserBrowser {
        return false;
      }
      links := links[sid := Link(browser, now)];
      return true;
    }

    /** End every session of an account and mark it disabled; answer the provider sessions
        to revoke. The validation identities are protected. */
    method DisableUser(user: Uuid, now: Time) returns (sids: Option<set<Sid>>)
      modifies this`sessions, this`users
      ensures sids.Some? <==> Effective(old(State()), Disable(user, now))
      ensures sids.Some? ==> sids.value == SessionsToRevoke(old(State()), user)
      ensures State() == Step(old(State()), Disable(user, now))
      ensures sids.None? <==> user !in old(users) || old(users)[user].isValidation
      ensures sids.None? ==> State() == old(State())
      ensures sids.Some? ==> Does(old(State()), Disable(user, now), State())
      ensures sids.Some? ==>
        forall sid :: sid in sids.value <==> sid in links && links[sid].browser in sessions && old(sessions)[links[sid].browser].user == user
    {
      StepInColumns(State(), Disable(user, now));
      sids := DisableRows(user, now);
    }

    method DisableRows(user: Uuid, now: Time) returns (sids: Option<set<Sid>>)
      modifies this`sessions, this`users
      ensures sids.Some? <==> Effective(old(State()), Disable(user, now))
      ensures sids.Some? ==> sids.value == SessionsToRevoke(old(State()), user)
      ensures State() == Step(old(State()), Disable(user, now))
    {
      if user !in users || users[user].isValidation {
        return None;
      }
      var mine := set id | id in sessions && sessions[id].user == user;
      var ids := set id | id in mine && sessions[id].revokedAt.None?;
      sids := Some(set sid | sid in links && links[sid].browser in mine);
      sessions := map id | id in sessions :: if id in ids then sessions[id].(revokedAt := Some(now)) else sessions[id];
      var at := if users[user].disabledAt.Some? then users[user].disabledAt else Some(now);
      users := users[user := users[user].(disabledAt := at)];
      assert ids == UnrevokedOf(old(State()), user);
      assert sessions == RevokeAll(old(State()), ids, now).sessions;
    }

    /** Snapshot the account's browser and provider sessions, end the browser sessions and
        store the grant; without provider sessions, only end the browser sessions. */
    method CreateLogoutCorrelationGrant(id: Uuid, token: string, subject: Uuid, browser: Option<Uuid>, expected: Option<Sid>,
                                        destinationKnown: bool, now: Time) returns (outcome: CreateOutcome)
      requires id !in grants
      modifies this`sessions, this`grants
      ensures outcome == CreateGrant(old(State()), subject, browser, expected, destinationKnown, token, now)
      ensures State() == if outcome.Created? || outcome.NothingToRevoke? then outcome.tables else old(State())
      ensures grants == if outcome.Created? then old(grants)[id := outcome.grant] else old(grants)
      ensures UniqueTokens(old(grants)) && (forall x :: x in old(grants) ==> old(grants)[x].token != token) ==> UniqueTokens(grants)
    {
      ghost var before := State();
      if browser.None? && expected.None? {
        return Refused;
      }
      if Inactive(subject) || !destinationKnown {
        return Refused;
      }
      var named: Uuid;
      var providerOnly := false;
      if browser.None? {
        if expected.value !in links || links[expected.value].browser !in sessions
           || sessions[links[expected.value].browser].user != subject {
          return Refused;
        }
        named := links[expected.value].browser;
        providerOnly := sessions[named].revokedAt.Some?;
      } else {
        named := browser.value;
      }
      var active := set b | b in sessions && sessions[b].user == subject && sessions[b].revokedAt.None?;
      if !providerOnly && named !in active {
        return SessionInactive;
      }
      if providerOnly {
        var row := NewGrant(token, subject, named, {}, {expected.value}, {expected.value}, now);
        grants := grants[id := row];
        return Created(Tables(users, sessions, links, absolute, idle), row);
      }
      var browserSids := set sid | sid in links && links[sid].browser == named;
      var activeSids := set sid | sid in links && links[sid].browser in active;
      assert browserSids == LinkedTo(before, {named}) && active == UnrevokedOf(before, subject);
      if expected.Some? && expected.value !in browserSids {
        return Refused;
      }
      sessions := map b | b in sessions :: if b in active then sessions[b].(revokedAt := Some(now)) else sessions[b];
      assert sessions == RevokeAll(before, active, now).sessions;
      if activeSids == {} {
        return NothingToRevoke(Tables(users, sessions, links, absolute, idle));
      }
      var row := NewGrant(token, subject, named, active, browserSids, activeSids, now);
      grants := grants[id := row];
      return Created(Tables(users, sessions, links, absolute, idle), row);
    }

    /** lockActiveUser would fail. */
    predicate Inactive(user: Uuid)
      reads this
    {
      user !in users || users[user].disabledAt.Some?
    }

    /** Exchange an unexpired browser token for its grant, once. */
    method ConsumeLogoutCorrelationGrant(token: string, subject: Uuid, now: Time) returns (found: Option<Uuid>)
      modifies this`grants
      ensures found.Some? ==> found.value in old(grants) && Consumable(old(grants)[found.value], token, subject, now)
                              && grants == old(grants)[found.value := Consumed(old(grants)[found.value], now)]
      ensures found.Some? ==> found.value in old(grants) && var g := old(grants)[found.value];
        && g.token == token && g.subject == subject && g.consumedAt == None && g.completedAt == None && g.expiresAt > now
        && ReplacesRow(old(grants), grants, found.value, g.(consumedAt := Some(now), cleanupAfter := now + 5 * MINUTE))
      ensures found.None? ==> grants == old(grants) && forall id :: id in grants ==> !Exchangeable(grants[id], token, subject, now)
      ensures UniqueTokens(old(grants)) ==> UniqueTokens(grants)
      ensures UniqueTokens(old(grants)) && found.Some? ==>
        forall id :: id in old(grants) && old(grants)[id].token == token ==> id == found.value
    {
      if id :| id in grants && Consumable(grants[id], token, subject, now) {
        grants := grants[id := grants[id].(consumedAt := Some(now), cleanupAfter := now + COMPLETION_LIFETIME)];
        return Some(id);
      }
      return None;
    }

    /** Lease the due grant that has waited longest, passing over locked rows. */
    method ClaimAbandonedLogoutCorrelationGrant(locked: set<Uuid>, now: Time) returns (claimed: Option<Uuid>)
      modifies this`grants
      ensures claimed.Some? ==> NextToRecover(old(grants), locked, now, claimed.value)
                                && grants == old(grants)[claimed.value := ClaimedGrant(old(grants)[claimed.value], now)]
      ensures claimed.None? ==> grants == old(grants) && forall id :: id in grants && id !in locked ==> !Due(grants[id], now)
      ensures claimed.Some? ==> claimed.value in old(grants) && claimed.value !in locked && var g := old(grants)[claimed.value];
        && Due(g, now)
        && ReplacesRow(old(grants), grants, claimed.value, g.(claimedUntil := Some(now + 30 * SECOND), attempts := g.attempts + 1))
        && forall x :: x in old(grants) && x !in locked && Due(old(grants)[x], now) && x != claimed.value ==>
             g.cleanupAfter < old(grants)[x].cleanupAfter
             || (g.cleanupAfter == old(grants)[x].cleanupAfter && TextLess(claimed.value.text, x.text))
    {
      var rows := grants;
      var due := set id | id in rows && id !in locked && Recoverable(rows[id], now);
      if due == {} {
        assert forall id :: id in rows && id !in locked && Recoverable(rows[id], now) ==> id in due;
        return None;
      }
      var best :| best in due;
      var todo := due - {best};
      while todo != {}
        invariant todo <= due && best in due - todo
        invariant forall x :: x in due - todo && x != best ==> WaitedLonger(rows, best, x)
      {
        var id :| id in todo;
        TextOrderIsTotal(id.text, best.text);
        if WaitedLonger(rows, id, best) {
          forall x | x in due - todo && x != best ensures WaitedLonger(rows, id, x) {
            if rows[id].cleanupAfter == rows[best].cleanupAfter == rows[x].cleanupAfter {
              TextOrderIsTransitive(id.text, best.text, x.text);
            }
          }
          best := id;
        }
        todo := todo - {id};
      }
      grants := rows[best := rows[best].(claimedUntil := Some(now + CLEANUP_LEASE), attempts := rows[best].attempts + 1)];
      return Some(best);
    }

    /** Lease the grant whose browser came back from the provider. */
    method ClaimConsumedLogoutCorrelationGrant(token: string, now: Time) returns (claimed: Option<Uuid>)
      modifies this`grants
      ensures claimed.Some? ==> claimed.value in old(grants) && Finishable(old(grants)[claimed.value], token, now)
                                && grants == old(grants)[claimed.value := ClaimedGrant(old(grants)[claimed.value], now)]
      ensures claimed.Some? ==> claimed.value in old(grants) && var g := old(grants)[claimed.value];
        && LogoutColumns.Waiting(g, token, now)
        && ReplacesRow(old(grants), grants, claimed.value, g.(claimedUntil := Some(now + 30 * SECOND), attempts := g.attempts + 1))
      ensures claimed.None? ==> grants == old(grants) && forall id :: id in grants ==> !LogoutColumns.Waiting(grants[id], token, now)
    {
      if id :| id in grants && Finishable(grants[id], token, now) {
        grants := grants[id := grants[id].(claimedUntil := Some(now + CLEANUP_LEASE), attempts := grants[id].attempts + 1)];
        return Some(id);
      }
      return None;
    }

    /** Mark an incomplete grant complete; a second completion is an error. */
    method CompleteLogoutCorrelationGrant(id: Uuid, now: Time) returns (ok: bool)
      modifies this`grants
      ensures ok <==> id in old(grants) && old(grants)[id].completedAt.None?
      ensures grants == if ok then old(grants)[id := Completed(old(grants)[id], now)] else old(grants)
      ensures ok ==> ReplacesRow(old(grants), grants, id, old(grants)[id].(completedAt := Some(now), claimedUntil := None, failed := false))
    {
      if id !in grants || grants[id].completedAt.Some? {
        return false;
      }
      grants := grants[id := grants[id].(completedAt := Some(now), claimedUntil := None, failed := false)];
      return true;
    }

    method FailLogoutCorrelationGrant(id: Uuid, retryAt: Time) returns (ok: bool)
      modifies this`grants
      ensures ok <==> id in old(grants) && old(grants)[id].completedAt.None?
      ensures grants == if ok then old(grants)[id := Rescheduled(old(grants)[id], retryAt)] else old(grants)
      ensures ok ==> ReplacesRow(old(grants), grants, id, old(grants)[id].(cleanupAfter := retryAt, claimedUntil := None, failed := true))
    {
      if id !in grants || grants[id].completedAt.Some? {
        return false;
      }
      grants := grants[id := grants[id].(cleanupAfter := retryAt, claimedUntil := None, failed := true)];
      return true;
    }

    /** Remove a bounded batch of old completed grants, oldest first; refuse a batch size
        outside 1 to 1000. */
    method DeleteCompletedLogoutCorrelationGrants(cutoff: Time, limit: int) returns (deleted: Option<set<Uuid>>)
      modifies this`grants
      ensures deleted.None? <==> limit < 1 || limit > CLEANUP_BATCH_MAXIMUM
      ensures deleted.None? ==> grants == old(grants)
      ensures deleted.Some? ==>
        && grants == old(grants) - deleted.value && deleted.value <= old(grants).Keys
        && (forall id :: id in deleted.value ==> old(grants)[id].completedAt.Some? && old(grants)[id].completedAt.value < cutoff)
        && |deleted.value| <= limit
        && (|deleted.value| < limit ==> forall id :: id in grants && grants[id].completedAt.Some? ==> grants[id].completedAt.value >= cutoff)
        && (forall gone, kept :: gone in deleted.value && kept in grants && Disposable(grants[kept], cutoff)
                                 ==> CompletedEarlier(old(grants), gone, kept))
        && (forall gone, kept :: gone in deleted.value && kept in grants && grants[kept].completedAt.Some?
                                 ==> old(grants)[gone].completedAt.value <= grants[kept].completedAt.value)
    {
      if limit < 1 || limit > CLEANUP_BATCH_MAXIMUM {
        return None;
      }
      var gone := EarliestBatch(grants, cutoff, limit);
      grants := grants - gone;
      return Some(gone);
    }
  }

  /** The rows completed before the cutoff, earliest first, up to the limit. */
  method EarliestBatch(grants: map<Uuid, Grant>, cutoff: Time, limit: nat) returns (gone: set<Uuid>)
    ensures gone <= grants.Keys && |gone| <= limit && forall id :: id in gone ==> Disposable(grants[id], cutoff)
    ensures |gone| < limit ==> forall id :: id in grants && id !in gone ==> !Disposable(grants[id], cutoff)
    ensures forall g, k :: g in gone && k in grants && k !in gone && Disposable(grants[k], cutoff) ==> CompletedEarlier(grants, g, k)
  {
    gone := {};
    var left := set id | id in grants && Disposable(grants[id], cutoff);
    while |gone| < limit && left != {}
      invariant gone !! left && gone + left == set id | id in grants && Disposable(grants[id], cutoff)
      invariant |gone| <= limit
      invariant forall g, k :: g in gone && k in left ==> CompletedEarlier(grants, g, k)
      decreases left
    {
      var id := EarliestCompleted(grants, left, cutoff);
      gone, left := gone + {id}, left - {id};
    }
    assert forall id :: id in grants && id !in gone && Disposable(grants[id], cutoff) ==> id in left;
  }

  method EarliestCompleted(grants: map<Uuid, Grant>, ids: set<Uuid>, cutoff: Time) returns (earliest: Uuid)
    requires ids != {} && ids <= grants.Keys && forall id :: id in ids ==> Disposable(grants[id], cutoff)
    ensures earliest in ids && forall x :: x in ids && x != earliest ==> CompletedEarlier(grants, earliest, x)
  {
    earliest :| earliest in ids;
    var todo := ids - {earliest};
    while todo != {}
      invariant todo <= ids && earliest in ids - todo
      invariant forall x :: x in ids - todo && x != earliest ==> CompletedEarlier(grants, earliest, x)
    {
      var id :| id in todo;
      TextOrderIsTotal(id.text, earliest.text);
      if CompletedEarlier(grants, id, earliest) {
        forall x | x in ids - todo && x != earliest ensures CompletedEarlier(grants, id, x) {
          if grants[id].completedAt == grants[earliest].completedAt == grants[x].completedAt {
            TextOrderIsTransitive(id.text, earliest.text, x.text);
          }
        }
        earliest := id;
      }
      todo := todo - {id};
    }
  }
}
