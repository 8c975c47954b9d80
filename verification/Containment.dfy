/** What disabling an account guarantees over whole histories. */
module Containment {
  import opened Common
  import opened Accounts

  ghost predicate Inv(t: Tables) {
    && (forall id :: id in t.sessions ==> t.sessions[id].user in t.users)
    && (forall sid :: sid in t.links ==> t.links[sid].browser in t.sessions)
    && (forall id :: id in t.sessions && t.sessions[id].revokedAt.None? ==> Active(t, t.sessions[id].user))
  }

  /** Browser sessions are never deleted, never change hands, and stay revoked;
      provider-session rows are never deleted. */
  ghost predicate Grows(before: Tables, after: Tables) {
    && (forall id :: id in before.sessions ==>
          && id in after.sessions && after.sessions[id].user == before.sessions[id].user
          && after.sessions[id].createdAt == before.sessions[id].createdAt
          && (before.sessions[id].revokedAt.Some? ==> after.sessions[id].revokedAt == before.sessions[id].revokedAt)
          && after.sessions[id].expiresAt <= before.sessions[id].expiresAt)
    && (forall sid :: sid in before.links ==> sid in after.links)
    && before.users.Keys <= after.users.Keys
  }

  /** The account behind a provider session. */
  ghost function Owner(t: Tables, sid: Sid): Uuid
    requires Inv(t) && sid in t.links
  {
    t.sessions[t.links[sid].browser].user
  }

  lemma RevokingKeepsInv(t: Tables, ids: set<Uuid>, now: Time)
    requires Inv(t)
    ensures Inv(RevokeAll(t, ids, now)) && Grows(t, RevokeAll(t, ids, now))
  {
  }

  lemma DisablingKeepsInv(t: Tables, user: Uuid, now: Time)
    requires Inv(t) && Effective(t, Disable(user, now))
    ensures Inv(Step(t, Disable(user, now))) && Grows(t, Step(t, Disable(user, now)))
    ensures UnrevokedOf(Step(t, Disable(user, now)), user) == {}
  {
    var after := Step(t, Disable(user, now));
    forall id | id in after.sessions && after.sessions[id].revokedAt.None? ensures Active(after, after.sessions[id].user) {
      assert id !in UnrevokedOf(t, user);
    }
  }

  lemma StepKeepsInv(t: Tables, e: Event)
    requires Inv(t)
    ensures Inv(Step(t, e)) && Grows(t, Step(t, e))
  {
    if Effective(t, e) {
      match e
      case Revoke(ids, now) => RevokingKeepsInv(t, ids, now);
      case RevokeUser(user, now) => RevokingKeepsInv(t, UnrevokedOf(t, user), now);
      case Disable(user, now) => DisablingKeepsInv(t, user, now);
      case _ =>
    }
  }

  lemma {:induction false} HistoryKeepsInv(t: Tables, events: seq<Event>)
    requires Inv(t)
    ensures Inv(Exec(t, events)) && Grows(t, Exec(t, events))
    decreases |events|
  {
    if events != [] {
      HistoryKeepsInv(t, events[..|events| - 1]);
      StepKeepsInv(Exec(t, events[..|events| - 1]), events[|events| - 1]);
    }
  }

  // ---------------------------------------------------------------- ownership

  lemma {:induction false} StepKeepsOwner(t: Tables, e: Event, sid: Sid)
    requires Inv(t) && sid in t.links
    ensures Inv(Step(t, e)) && sid in Step(t, e).links
    ensures Owner(Step(t, e), sid) == Owner(t, sid)
    ensures Step(t, e).links[sid].browser != t.links[sid].browser ==>
      && e.Record? && e.sid == sid && Step(t, e).links[sid].browser == e.browser
      && Stale(t.sessions[t.links[sid].browser], e.now, e.idle)
      && !Stale(t.sessions[e.browser], e.now, e.idle)
  {
    StepKeepsInv(t, e);
  }

  /** Over any history a provider session keeps its account. (Each step that rebinds it
      moves it from a stale browser session of that account to one in force, above.) */
  lemma {:induction false} OwnerNeverChanges(t: Tables, events: seq<Event>, sid: Sid)
    requires Inv(t) && sid in t.links
    ensures Inv(Exec(t, events)) && sid in Exec(t, events).links
    ensures Owner(Exec(t, events), sid) == Owner(t, sid)
    decreases |events|
  {
    if events != [] {
      OwnerNeverChanges(t, events[..|events| - 1], sid);
      StepKeepsOwner(Exec(t, events[..|events| - 1]), events[|events| - 1], sid);
    }
  }

  /** A disabled account has no unrevoked session, in every reachable state. */
  lemma {:induction false} DisabledAccountHasNoSession(t: Tables, events: seq<Event>, user: Uuid)
    requires Inv(t)
    requires user in Exec(t, events).users && Exec(t, events).users[user].disabledAt.Some?
    ensures UnrevokedOf(Exec(t, events), user) == {}
  {
    HistoryKeepsInv(t, events);
  }

  /** Disabling answers every provider session the account ever had, so a retry after a
      failed provider call misses none. */
  lemma {:induction false} RetriedDisableAnswersAllSessions(t: Tables, events: seq<Event>, user: Uuid, sid: Sid)
    requires Inv(t) && sid in t.links && Owner(t, sid) == user
    ensures sid in SessionsToRevoke(Exec(t, events), user)
  {
    OwnerNeverChanges(t, events, sid);
  }

  // ---------------------------------------------------------------- what must happen before a token

  ghost predicate HappensAt(t: Tables, events: seq<Event>, i: int) {
    0 <= i < |events| && Effective(Exec(t, events[..i]), events[i])
  }

  /** A browser session that appears was created. */
  lemma {:induction false} NewSessionWasCreated(t: Tables, events: seq<Event>, id: Uuid) returns (j: nat)
    requires id !in t.sessions && id in Exec(t, events).sessions
    ensures HappensAt(t, events, j) && events[j].CreateSession? && events[j].id == id
    ensures id !in Exec(t, events[..j]).sessions
    ensures id in Exec(t, events[..j + 1]).sessions && Exec(t, events[..j + 1]).sessions[id].user == events[j].user
    decreases |events|
  {
    var n := |events| - 1;
    if id in Exec(t, events[..n]).sessions {
      j := NewSessionWasCreated(t, events[..n], id);
      assert events[..n][..j] == events[..j] && events[..n][..j + 1] == events[..j + 1];
    } else {
      j := n;
      assert events[..n + 1] == events;
    }
  }

  /** An account that is active again was enabled. */
  lemma {:induction false} ActiveAgainWasEnabled(t: Tables, events: seq<Event>, user: Uuid) returns (i: nat)
    requires user in t.users && !Active(t, user) && Active(Exec(t, events), user)
    ensures HappensAt(t, events, i) && events[i] == Enable(user)
    decreases |events|
  {
    var n := |events| - 1;
    if Active(Exec(t, events[..n]), user) {
      i := ActiveAgainWasEnabled(t, events[..n], user);
      assert events[..n][..i] == events[..i];
    } else {
      i := n;
      UsersStay(t, events[..n], user);
    }
  }

  lemma {:induction false} UsersStay(t: Tables, events: seq<Event>, user: Uuid)
    requires user in t.users
    ensures user in Exec(t, events).users
    decreases |events|
  {
    if events != [] { UsersStay(t, events[..|events| - 1], user); }
  }

  /** A provider session bound to a browser session it was not bound to was recorded. */
  lemma {:induction false} NewLinkWasRecorded(t: Tables, events: seq<Event>, sid: Sid, browser: Uuid) returns (m: nat)
    requires sid in Exec(t, events).links && Exec(t, events).links[sid].browser == browser
    requires sid in t.links ==> t.links[sid].browser != browser
    ensures HappensAt(t, events, m) && events[m].Record? && events[m].sid == sid && events[m].browser == browser
    decreases |events|
  {
    var n := |events| - 1;
    var last := Exec(t, events[..n]);
    if sid in last.links && last.links[sid].browser == browser {
      m := NewLinkWasRecorded(t, events[..n], sid, browser);
      assert events[..n][..m] == events[..m];
    } else {
      m := n;
    }
  }

  lemma {:induction false} ExecSplits(t: Tables, events: seq<Event>, j: nat)
    requires j <= |events|
    ensures Exec(t, events) == Exec(Exec(t, events[..j]), events[j..])
    decreases |events| - j
  {
    if j == |events| {
      assert events[..j] == events;
    } else {
      ExecSplits(t, events, j + 1);
      ExecHead(Exec(t, events[..j]), events[j..]);
      assert events[..j + 1][..j] == events[..j] && events[j..][1..] == events[j + 1..];
    }
  }

  lemma {:induction false} ExecHead(t: Tables, events: seq<Event>)
    requires events != []
    ensures Exec(t, events) == Exec(Step(t, events[0]), events[1..])
    decreases |events|
  {
    var n := |events| - 1;
    if n == 0 {
      assert events[..0] == [] && events[1..] == [];
    } else {
      ExecHead(t, events[..n]);
      assert events[..n][1..] == events[1..][..n - 1];
    }
  }

  lemma PrefixHappenings(t: Tables, events: seq<Event>, n: nat, i: nat)
    requires n <= |events| && HappensAt(t, events[..n], i)
    ensures HappensAt(t, events, i)
  {
    assert events[..n][..i] == events[..i];
  }

  lemma SuffixHappenings(t: Tables, events: seq<Event>, n: nat, i: nat)
    requires n <= |events| && HappensAt(Exec(t, events[..n]), events[n..], i)
    ensures HappensAt(t, events, n + i) && events[n + i] == events[n..][i]
  {
    ExecSplits(t, events[..n + i], n);
    assert events[..n + i][..n] == events[..n] && events[..n + i][n..] == events[n..][..i];
  }

  /** From a state in which the account is disabled, a provider session of it comes into
      force only after the account was enabled, then a browser session created, then the
      provider session recorded for that browser session, in this order. */
  lemma InForceAgainOnlyAfterSignIn(t: Tables, events: seq<Event>, sid: Sid, user: Uuid) returns (i: nat, j: nat, m: nat)
    requires Inv(t) && user in t.users && t.users[user].disabledAt.Some?
    requires ProviderSessionAccount(Exec(t, events), sid) == Some((user, true))
    ensures i < j < m < |events|
    ensures HappensAt(t, events, i) && events[i] == Enable(user)
    ensures HappensAt(t, events, j) && events[j].CreateSession? && events[j].user == user
    ensures HappensAt(t, events, m) && events[m].Record? && events[m].sid == sid && events[m].browser == events[j].id
  {
    var browser := Exec(t, events).links[sid].browser;
    assert browser !in t.sessions by { HistoryKeepsInv(t, events); }
    j := NewSessionWasCreated(t, events, browser);
    SessionKeepsUser(t, events, j + 1, browser);
    i := ActiveAgainWasEnabled(t, events[..j], user);
    PrefixHappenings(t, events, j, i);
    m := RecordedAfterCreation(t, events, j, sid, browser);
  }

  lemma SessionKeepsUser(t: Tables, events: seq<Event>, n: nat, id: Uuid)
    requires Inv(t) && n <= |events| && id in Exec(t, events[..n]).sessions
    ensures id in Exec(t, events).sessions && Exec(t, events).sessions[id].user == Exec(t, events[..n]).sessions[id].user
  {
    ExecSplits(t, events, n);
    HistoryKeepsInv(t, events[..n]);
    HistoryKeepsInv(Exec(t, events[..n]), events[n..]);
  }

  lemma RecordedAfterCreation(t: Tables, events: seq<Event>, j: nat, sid: Sid, browser: Uuid) returns (m: nat)
    requires Inv(t) && HappensAt(t, events, j) && events[j].CreateSession? && browser !in Exec(t, events[..j]).sessions
    requires sid in Exec(t, events).links && Exec(t, events).links[sid].browser == browser
    ensures j < m && HappensAt(t, events, m) && events[m].Record? && events[m].sid == sid && events[m].browser == browser
  {
    HistoryKeepsInv(t, events[..j]);
    assert events[..j + 1][..j] == events[..j];
    assert Exec(t, events[..j + 1]).links == Exec(t, events[..j]).links;
    ExecSplits(t, events, j + 1);
    var k := NewLinkWasRecorded(Exec(t, events[..j + 1]), events[j + 1..], sid, browser);
    SuffixHappenings(t, events, j + 1, k);
    m := j + 1 + k;
  }

  /** Enabled after moment d, and not disabled since. */
  ghost predicate EnabledSince(t: Tables, events: seq<Event>, d: nat, user: Uuid) {
    exists i :: d < i < |events| && LastSwitch(t, events, i, user)
  }

  /** The enabling at i is the last transaction that switched the account on or off. */
  ghost predicate LastSwitch(t: Tables, events: seq<Event>, i: nat, user: Uuid) {
    && HappensAt(t, events, i) && events[i] == Enable(user)
    && forall k :: i < k < |events| && HappensAt(t, events, k) ==> !(events[k].Disable? && events[k].user == user)
  }

  lemma LastSwitchInPrefix(t: Tables, events: seq<Event>, n: nat, i: nat, user: Uuid)
    requires n + 1 == |events| && i < n
    requires HappensAt(t, events, n) ==> !(events[n].Disable? && events[n].user == user)
    ensures LastSwitch(t, events[..n], i, user) <==> LastSwitch(t, events, i, user)
  {
    forall k: nat | k < n
      ensures HappensAt(t, events[..n], k) <==> HappensAt(t, events, k)
    {
      assert events[..n][..k] == events[..k];
    }
  }

  /** After a disabling at d the account is active if and only if it was enabled later and
      not disabled since. */
  lemma {:induction false} ActiveIffEnabledSince(t: Tables, events: seq<Event>, d: nat, user: Uuid)
    requires HappensAt(t, events, d) && events[d].Disable? && events[d].user == user
    ensures Active(Exec(t, events), user) <==> EnabledSince(t, events, d, user)
    decreases |events|
  {
    var n := |events| - 1;
    var before, e := Exec(t, events[..n]), events[n];
    assert HappensAt(t, events, n) <==> Effective(before, e);
    if d < n {
      assert events[..n][..d] == events[..d];
      ExecSplits(t, events[..n], d);
      UsersStay(Exec(t, events[..d]), events[..n][d..], user);
      ActiveIffEnabledSince(t, events[..n], d, user);
      if Effective(before, e) && e == Enable(user) {
        assert LastSwitch(t, events, n, user);
      } else if !(Effective(before, e) && e.Disable? && e.user == user) {
        forall i: nat | d < i < n
          ensures LastSwitch(t, events[..n], i, user) <==> LastSwitch(t, events, i, user)
        {
          LastSwitchInPrefix(t, events, n, i, user);
        }
      }
    }
  }
}
