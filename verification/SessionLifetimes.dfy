/** How long a browser session lasts under changing policies. */
module SessionLifetimes {
  import opened Common
  import opened Accounts

  /** The tables with the absolute lifetimes in force so far, oldest first, and, for each
      session, the lifetime its creation read and how many lifetimes had been in force
      when its row was written. */
  datatype History = History(tables: Tables, lifetimes: seq<Time>, read: map<Uuid, Time>, written: map<Uuid, nat>)

  function Record(h: History, e: Event): History {
    var after := Step(h.tables, e);
    if e.CreateSession? && Effective(h.tables, e) then
      History(after, h.lifetimes, h.read[e.id := e.lifetime], h.written[e.id := |h.lifetimes|])
    else if e.ChangePolicy? then h.(tables := after, lifetimes := h.lifetimes + [e.absolute])
    else h.(tables := after)
  }

  function Recorded(h: History, events: seq<Event>): History {
    if events == [] then h
    else Record(Recorded(h, events[..|events| - 1]), events[|events| - 1])
  }

  /** The least of x and the elements of s. */
  function LeastOf(x: Time, s: seq<Time>): (least: Time)
    ensures least <= x && forall i :: 0 <= i < |s| ==> least <= s[i]
    ensures least == x || least in s
  {
    if s == [] then x
    else
      var n := |s| - 1;
      var rest := LeastOf(x, s[..n]);
      assert s == s[..n] + [s[n]];
      if s[n] < rest then s[n] else rest
  }

  /** The lifetime an unrevoked session must have: the least of the one its creation read
      and every one stored since its row was written. */
  function LifetimeOf(h: History, id: Uuid): Time
    requires id in h.read && id in h.written && h.written[id] <= |h.lifetimes|
  {
    LeastOf(h.read[id], h.lifetimes[h.written[id]..])
  }

  ghost predicate Inv(h: History) {
    && h.lifetimes != [] && h.lifetimes[|h.lifetimes| - 1] == h.tables.absolute
    && (forall id :: id in h.tables.sessions ==> id in h.read && id in h.written && h.written[id] <= |h.lifetimes|)
    && (forall id :: id in h.tables.sessions && h.tables.sessions[id].revokedAt.None?
          ==> h.tables.sessions[id].expiresAt == h.tables.sessions[id].createdAt + LifetimeOf(h, id))
  }

  lemma ChangingKeepsInv(h: History, e: Event)
    requires Inv(h) && e.ChangePolicy?
    ensures Inv(Record(h, e))
  {
    var k := Record(h, e);
    forall id | id in k.tables.sessions && k.tables.sessions[id].revokedAt.None?
      ensures k.tables.sessions[id].expiresAt == k.tables.sessions[id].createdAt + LifetimeOf(k, id)
    {
      var w := h.written[id];
      assert k.lifetimes[w..] == h.lifetimes[w..] + [e.absolute];
    }
  }

  lemma RecordKeepsInv(h: History, e: Event)
    requires Inv(h)
    ensures Inv(Record(h, e))
  {
    if e.ChangePolicy? {
      ChangingKeepsInv(h, e);
    }
  }

  /** In every history an unrevoked session expires at its creation plus the least of the
      lifetime its creation read and the lifetimes stored since. */
  lemma {:induction false} ExpiryIsLeastLifetime(h: History, events: seq<Event>)
    requires Inv(h)
    ensures Inv(Recorded(h, events))
    decreases |events|
  {
    if events != [] {
      ExpiryIsLeastLifetime(h, events[..|events| - 1]);
      RecordKeepsInv(Recorded(h, events[..|events| - 1]), events[|events| - 1]);
    }
  }

  /** The least lifetime in force at any time since the row was written. */
  function LeastInForceSince(h: History, id: Uuid): Time
    requires id in h.written && 0 < h.written[id] <= |h.lifetimes|
  {
    LeastOf(h.lifetimes[h.written[id] - 1], h.lifetimes[h.written[id]..])
  }

  /** That is the least lifetime in force since creation exactly when the creation read the
      lifetime in force as its row was written, or a later one undercut both. Reading the
      policy and inserting the row in one step ensures it. */
  lemma {:induction false} ExpiryFollowsPolicyInForce(h: History, id: Uuid)
    requires Inv(h) && id in h.tables.sessions && h.tables.sessions[id].revokedAt.None? && h.written[id] > 0
    ensures h.tables.sessions[id].expiresAt == h.tables.sessions[id].createdAt + LeastInForceSince(h, id)
      <==> (h.read[id] == h.lifetimes[h.written[id] - 1]
            || exists i :: h.written[id] <= i < |h.lifetimes| && h.lifetimes[i] <= h.read[id] && h.lifetimes[i] <= h.lifetimes[h.written[id] - 1])
  {
    var w := h.written[id];
    var x, y, later := h.read[id], h.lifetimes[w - 1], h.lifetimes[w..];
    assert forall i :: w <= i < |h.lifetimes| ==> h.lifetimes[i] == later[i - w];
    if i :| w <= i < |h.lifetimes| && h.lifetimes[i] <= x && h.lifetimes[i] <= y {
      LeastIgnoresLargerStart(x, y, later, i - w);
    }
  }

  lemma {:induction false} LeastIgnoresLargerStart(x: Time, y: Time, s: seq<Time>, i: nat)
    requires i < |s| && s[i] <= x && s[i] <= y
    ensures LeastOf(x, s) == LeastOf(y, s)
    decreases |s|
  {
    var n := |s| - 1;
    if i < n {
      LeastIgnoresLargerStart(x, y, s[..n], i);
    }
  }

  /** A policy change committed between a creation's policy read and its insert leaves a
      session that outlives the stored policy until the next change. */
  lemma StaleReadOutlivesPolicy(h: History, user: Uuid, id: Uuid, now: Time, shorter: Time)
    requires Inv(h) && Active(h.tables, user) && id !in h.tables.sessions && shorter < h.tables.absolute
    ensures var k := Record(Record(h, ChangePolicy(shorter, h.tables.idle)), CreateSession(user, id, h.tables.absolute, now));
      k.tables.sessions[id].expiresAt > now + k.tables.absolute
  {
  }

  /** No transaction ever moves a session's expiry later. */
  lemma NoStepExtendsSession(t: Tables, e: Event, id: Uuid)
    requires id in t.sessions
    ensures id in Step(t, e).sessions && Step(t, e).sessions[id].expiresAt <= t.sessions[id].expiresAt
    ensures t.sessions[id].revokedAt.Some? ==> Step(t, e).sessions[id].expiresAt == t.sessions[id].expiresAt
  {
  }
}
